/** When canonicalising a document twice is canonicalising it once. */
module Idempotence {
  import opened Seqs
  import opened Sorting
  import opened Text
  import opened Markers
  import opened Canonical

  /** The sections a canonical document lists, as the next pass sees them: each but the last is
      followed by a space. */
  function Listed(gs: seq<seq<string>>): (r: seq<string>)
    ensures |r| == |gs|
  {
    seq(|gs|, i requires 0 <= i < |gs| => if i == |gs| - 1 then Join(gs[i]) else Join(gs[i]) + " ")
  }

  /** Where the words of the last section first occur. */
  function FirstAlike(gs: seq<seq<string>>, from: nat): (f: nat)
    requires from < |gs|
    ensures from <= f < |gs| && gs[f] == gs[|gs| - 1]
    ensures forall i :: from <= i < f ==> gs[i] != gs[|gs| - 1]
    decreases |gs| - from
  {
    if gs[from] == gs[|gs| - 1] then from else FirstAlike(gs, from + 1)
  }

  /** The same with the bare copy at the first section that reads like the last. */
  function Settled(gs: seq<seq<string>>): (r: seq<string>)
    ensures |r| == |gs|
  {
    seq(|gs|, i requires 0 <= i < |gs| => if i == FirstAlike(gs, 0) then Join(gs[i]) else Join(gs[i]) + " ")
  }

  // ---- The next pass sorts the listed sections ----

  lemma ListedPart(gs: seq<seq<string>>, i: nat)
    requires CleanGroups(gs) && i < |gs|
    ensures Tag(BodyParts(gs)[i]) == Listed(gs)[i]
  {
    JoinGroup(gs[i]);
    if i == |gs| - 1 {
      LastBodyPart(gs);
    } else {
      BodyPartBeforeLast(gs, i);
      Assoc(MARKER, Body(gs[i]), " ");
    }
  }

  lemma {:induction false} LastBodyPart(gs: seq<seq<string>>)
    requires CleanGroups(gs) && gs != []
    ensures BodyParts(gs)[|gs| - 1] == Body(gs[|gs| - 1])
  {
    if |gs| > 1 { LastBodyPart(gs[1..]); }
  }

  lemma {:induction false} BodyPartBeforeLast(gs: seq<seq<string>>, i: nat)
    requires CleanGroups(gs) && i < |gs| - 1
    ensures BodyParts(gs)[i] == Body(gs[i]) + " "
  {
    if i > 0 { BodyPartBeforeLast(gs[1..], i - 1); }
  }

  lemma NextPass(s: string)
    ensures var c, gs := Canonicalize(Document, s), SectionWords(s);
      && PreambleWords(c) == PreambleWords(s)
      && SectionWords(c) == Map(Tokens, SortBy(Listed(gs), StrLe))
  {
    var gs := SectionWords(s);
    CanonicalSplits(s);
    DocumentPartsClean(s);
    CanonicalPartsClean(PreambleWords(s), gs);
    CanonicalPartsAre(PreambleWords(s), gs);
    forall i | 0 <= i < |gs| ensures Map(Tag, BodyParts(gs))[i] == Listed(gs)[i] { ListedPart(gs, i); }
    assert Map(Tag, BodyParts(gs)) == Listed(gs);
  }

  // ---- When sorting keeps the words in place ----

  lemma ListedWords(g: seq<string>)
    requires CleanGroup(g)
    ensures Tokens(Join(g)) == g && Tokens(Join(g) + " ") == g
  {
    TokensJoin(g);
    TokensSnocWhite(Join(g), ' ');
    assert Join(g) + [' '] == Join(g) + " ";
  }

  lemma SettledWords(gs: seq<seq<string>>)
    requires CleanGroups(gs)
    ensures Map(Tokens, Settled(gs)) == gs && Map(Tokens, Listed(gs)) == gs
  {
    forall i | 0 <= i < |gs| ensures Tokens(Settled(gs)[i]) == gs[i] && Tokens(Listed(gs)[i]) == gs[i] {
      ListedWords(gs[i]);
    }
  }

  lemma SettledIsPermutation(gs: seq<seq<string>>)
    ensures multiset(Settled(gs)) == multiset(Listed(gs))
  {
    var r, l := Settled(gs), Listed(gs);
    if gs != [] {
      var f, n := FirstAlike(gs, 0), |gs| - 1;
      assert r == l[f := l[n]][n := l[f]];
    }
  }

  lemma SettledStays(gs: seq<seq<string>>)
    requires CleanGroups(gs) && Sorted(Settled(gs), StrLe)
    ensures Map(Tokens, SortBy(Listed(gs), StrLe)) == gs
  {
    StrLeOrder();
    SettledIsPermutation(gs);
    SortSorts(Listed(gs), StrLe);
    SortedUnique(SortBy(Listed(gs), StrLe), Settled(gs), StrLe);
    SettledWords(gs);
  }

  /** Only the last listed section is not followed by a space. */
  lemma BareIsLast(gs: seq<seq<string>>, m: nat)
    requires CleanGroups(gs) && m < |gs|
    ensures Listed(gs)[m] == Join(gs[|gs| - 1]) <==> m == |gs| - 1
  {
    var bare := Join(gs[|gs| - 1]);
    assert CleanGroup(gs[|gs| - 1]);
    JoinShape(gs[|gs| - 1]);
    if m < |gs| - 1 {
      var k := Listed(gs)[m];
      assert k[|k| - 1] == ' ' != bare[|bare| - 1];
    }
  }

  lemma BareOnce(gs: seq<seq<string>>)
    requires CleanGroups(gs) && gs != []
    ensures multiset(Listed(gs))[Join(gs[|gs| - 1])] == 1
  {
    var l, n := Listed(gs), |gs| - 1;
    forall m | 0 <= m < n ensures l[..n][m] != l[n] { BareIsLast(gs, m); }
    assert l == l[..n] + [l[n]];
  }

  lemma TwiceCounts(xs: seq<string>, p: nat, q: nat)
    requires p < q < |xs| && xs[p] == xs[q]
    ensures multiset(xs)[xs[p]] >= 2
  {
    assert xs == xs[..q] + [xs[q]] + xs[q + 1..];
    assert xs[..q][p] in multiset(xs[..q]);
  }

  lemma SortedMember(xs: seq<string>, i: nat) returns (m: nat)
    requires i < |xs|
    ensures m < |xs| && xs[m] == SortBy(xs, StrLe)[i]
  {
    assert SortBy(xs, StrLe)[i] in multiset(SortBy(xs, StrLe));
    m :| 0 <= m < |xs| && xs[m] == SortBy(xs, StrLe)[i];
  }

  lemma ListedAt(gs: seq<seq<string>>, m: nat)
    requires CleanGroups(gs) && m < |gs|
    ensures Tokens(Listed(gs)[m]) == gs[m]
    ensures Listed(gs)[m] == if m == |gs| - 1 then Join(gs[m]) else Join(gs[m]) + " "
  {
    ListedWords(gs[m]);
  }

  /** A sorted arrangement with the words in place is a listed section in every place. */
  lemma PlaceOf(gs: seq<seq<string>>, i: nat)
    requires CleanGroups(gs) && i < |gs| && Map(Tokens, SortBy(Listed(gs), StrLe)) == gs
    ensures var k := SortBy(Listed(gs), StrLe);
      && k[i] in {Join(gs[i]), Join(gs[i]) + " "}
      && (k[i] == Join(gs[i]) ==> gs[i] == gs[|gs| - 1])
  {
    var k := SortBy(Listed(gs), StrLe);
    assert Tokens(k[i]) == Map(Tokens, k)[i];
    var m := SortedMember(Listed(gs), i);
    ListedAt(gs, m);
    if m < |gs| - 1 { assert |k[i]| == |Join(gs[i])| + 1; }
  }

  lemma SpacedIsLater(j: string)
    ensures !StrLe(j + " ", j)
  {
    StrLePrefix(j, " ", "");
    assert j + "" == j;
  }

  lemma ListedInOrder(gs: seq<seq<string>>, f: nat, p: nat)
    requires f < p < |gs|
    ensures StrLe(SortBy(Listed(gs), StrLe)[f], SortBy(Listed(gs), StrLe)[p])
  {
    StrLeOrder();
    SortSorts(Listed(gs), StrLe);
  }

  /** Equal words, different places: the bare copy is not the later one. */
  lemma BareNotLater(gs: seq<seq<string>>, f: nat, p: nat)
    requires CleanGroups(gs) && f < p < |gs| && gs[f] == gs[p] == gs[|gs| - 1]
    requires Map(Tokens, SortBy(Listed(gs), StrLe)) == gs
    ensures SortBy(Listed(gs), StrLe)[p] != Join(gs[p])
  {
    var k := SortBy(Listed(gs), StrLe);
    PlaceOf(gs, f);
    BareOnce(gs);
    ListedInOrder(gs, f, p);
    SpacedIsLater(Join(gs[p]));
    if k[f] == k[p] { TwiceCounts(k, f, p); }
  }

  lemma BareIsFirst(gs: seq<seq<string>>, p: nat)
    requires CleanGroups(gs) && p < |gs| && Map(Tokens, SortBy(Listed(gs), StrLe)) == gs
    requires SortBy(Listed(gs), StrLe)[p] == Join(gs[p])
    ensures p == FirstAlike(gs, 0)
  {
    PlaceOf(gs, p);
    if FirstAlike(gs, 0) < p { BareNotLater(gs, FirstAlike(gs, 0), p); }
  }

  lemma BareAt(gs: seq<seq<string>>)
    requires CleanGroups(gs) && gs != [] && Map(Tokens, SortBy(Listed(gs), StrLe)) == gs
    ensures SortBy(Listed(gs), StrLe)[FirstAlike(gs, 0)] == Join(gs[|gs| - 1])
  {
    var k, bare := SortBy(Listed(gs), StrLe), Join(gs[|gs| - 1]);
    BareOnce(gs);
    assert bare in multiset(k);
    var p :| 0 <= p < |k| && k[p] == bare;
    BarePlace(gs, p);
  }

  lemma PlaceSettled(gs: seq<seq<string>>, i: nat)
    requires CleanGroups(gs) && i < |gs| && Map(Tokens, SortBy(Listed(gs), StrLe)) == gs
    ensures SortBy(Listed(gs), StrLe)[i] == Settled(gs)[i]
  {
    if i == FirstAlike(gs, 0) {
      BareAt(gs);
    } else {
      PlaceOf(gs, i);
      if SortBy(Listed(gs), StrLe)[i] == Join(gs[i]) { BareIsFirst(gs, i); }
    }
  }

  lemma StaysSettled(gs: seq<seq<string>>)
    requires CleanGroups(gs) && Map(Tokens, SortBy(Listed(gs), StrLe)) == gs
    ensures Sorted(Settled(gs), StrLe)
  {
    var k := SortBy(Listed(gs), StrLe);
    StrLeOrder();
    SortSorts(Listed(gs), StrLe);
    forall i | 0 <= i < |gs| ensures k[i] == Settled(gs)[i] { PlaceSettled(gs, i); }
    assert k == Settled(gs);
  }

  lemma BarePlace(gs: seq<seq<string>>, p: nat)
    requires CleanGroups(gs) && p < |gs| && Map(Tokens, SortBy(Listed(gs), StrLe)) == gs
    requires SortBy(Listed(gs), StrLe)[p] == Join(gs[|gs| - 1])
    ensures p == FirstAlike(gs, 0)
  {
    var k := SortBy(Listed(gs), StrLe);
    assert Tokens(k[p]) == Map(Tokens, k)[p];
    ListedWords(gs[|gs| - 1]);
    BareIsFirst(gs, p);
  }

  /** Idempotence of documents, exactly. Canonicalising twice is canonicalising once if and only
      if the collapsed sections, in the order of their raw text, are in order as they stand;
      nothing here canonicalises or sorts again. */
  lemma DocumentIdempotentExactly(s: string)
    ensures Canonicalize(Document, Canonicalize(Document, s)) == Canonicalize(Document, s)
      <==> Sorted(Settled(SectionWords(s)), StrLe)
  {
    var gs := SectionWords(s);
    NextPass(s);
    DocumentPartsClean(s);
    DocumentExact(Canonicalize(Document, s), s);
    if Sorted(Settled(gs), StrLe) { SettledStays(gs); }
    if Map(Tokens, SortBy(Listed(gs), StrLe)) == gs { StaysSettled(gs); }
  }
}
