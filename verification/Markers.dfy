/** Splitting a document on its `[SOURCE:` markers. */
module Markers {
  import opened Text

  const MARKER := "[SOURCE:"

  predicate MarkerAt(s: string, i: nat) { i + 8 <= |s| && s[i..i + 8] == MARKER }

  ghost predicate NoMarker(s: string) { forall i: nat :: !MarkerAt(s, i) }

  ghost predicate NoMarkers(parts: seq<string>) { forall i :: 0 <= i < |parts| ==> NoMarker(parts[i]) }

  /** `split("[SOURCE:")`: leftmost, non-overlapping. */
  function Split(s: string): (parts: seq<string>)
    ensures parts != []
    decreases |s|
  {
    if MarkerAt(s, 0) then [""] + Split(s[8..])
    else if s == "" then [""]
    else
      var r := Split(s[1..]);
      [[s[0]] + r[0]] + r[1..]
  }

  /** The document whose parts are the given ones. */
  function Unsplit(parts: seq<string>): string
    requires parts != []
  {
    if |parts| == 1 then parts[0] else parts[0] + MARKER + Unsplit(parts[1..])
  }

  lemma NoMarkerPart(s: string, i: nat, j: nat)
    requires i <= j <= |s| && NoMarker(s)
    ensures NoMarker(s[i..j])
  {
    forall k: nat ensures !MarkerAt(s[i..j], k) {
      if k + 8 <= j - i {
        var t, u := s[i..j][k..k + 8], s[i + k..i + k + 8];
        assert forall m :: 0 <= m < 8 ==> t[m] == u[m];
        assert t == u;
        assert !MarkerAt(s, i + k);
      }
    }
  }

  /** A separator that no marker contains introduces no marker. */
  lemma NoMarkerSep(a: string, w: char, b: string)
    requires NoMarker(a) && NoMarker(b) && w !in MARKER
    ensures NoMarker(a + [w] + b)
  {
    var s := a + [w] + b;
    forall i: nat ensures !MarkerAt(s, i) {
      if i + 8 <= |a| {
        assert s[i..i + 8] == a[i..i + 8];
        assert !MarkerAt(a, i);
      } else if |a| < i && i + 8 <= |s| {
        assert s[i..i + 8] == b[i - |a| - 1..i - |a| + 7];
        assert !MarkerAt(b, i - |a| - 1);
      } else if i + 8 <= |s| {
        assert s[i..i + 8][|a| - i] == w;
      }
    }
  }

  lemma MarkerIsWord()
    ensures IsWord(MARKER) && |MARKER| == 8
  {}

  lemma MarkerAhead(p: string, rest: string)
    requires NoMarker(p) && p != ""
    ensures !MarkerAt(p + (MARKER + rest), 0)
  {
    var s := p + (MARKER + rest);
    assert !MarkerAt(p, 0);
    if |p| < 8 {
      assert s[0..8][|p|] == '[' != MARKER[|p|];
    } else {
      assert s[0..8] == p[0..8];
    }
  }

  lemma {:induction false} SplitFirst(p: string, rest: string)
    requires NoMarker(p)
    ensures Split(p + (MARKER + rest)) == [p] + Split(rest)
  {
    var s := p + (MARKER + rest);
    if p == "" {
      assert s == MARKER + rest;
      assert s[0..8] == MARKER && s[8..] == rest;
    } else {
      MarkerAhead(p, rest);
      NoMarkerPart(p, 1, |p|);
      assert p[1..|p|] == p[1..];
      assert s[1..] == p[1..] + (MARKER + rest);
      SplitFirst(p[1..], rest);
      assert [p[0]] + p[1..] == p;
      assert ([p[1..]] + Split(rest))[1..] == Split(rest);
    }
  }

  lemma SplitNone(p: string)
    requires NoMarker(p)
    ensures Split(p) == [p]
  {
    assert !MarkerAt(p, 0);
    if p != "" {
      NoMarkerPart(p, 1, |p|);
      assert p[1..|p|] == p[1..];
      SplitNone(p[1..]);
      assert [p[0]] + p[1..] == p;
    }
  }

  /** Round trip: marker-free parts survive being written out and split again. */
  lemma {:induction false} SplitUnsplit(parts: seq<string>)
    requires parts != [] && NoMarkers(parts)
    ensures Split(Unsplit(parts)) == parts
  {
    if |parts| == 1 {
      SplitNone(parts[0]);
    } else {
      SplitFirst(parts[0], Unsplit(parts[1..]));
      Assoc(parts[0], MARKER, Unsplit(parts[1..]));
      SplitUnsplit(parts[1..]);
    }
  }

  lemma NoMarkerCons(c: char, p: string, s: string)
    requires NoMarker(p) && p <= s && !MarkerAt([c] + s, 0)
    ensures NoMarker([c] + p)
  {
    var h := [c] + p;
    forall i: nat ensures !MarkerAt(h, i) {
      if i == 0 {
        if |h| >= 8 { assert h[0..8] == ([c] + s)[0..8]; }
      } else if i + 8 <= |h| {
        assert h[i..i + 8] == p[i - 1..i + 7];
        assert !MarkerAt(p, i - 1);
      }
    }
  }

  /** Round trip the other way: splitting loses nothing and leaves marker-free parts. */
  lemma {:induction false} UnsplitSplit(s: string)
    ensures Unsplit(Split(s)) == s
    ensures NoMarkers(Split(s))
    decreases |s|
  {
    if MarkerAt(s, 0) {
      UnsplitSplit(s[8..]);
      var r := Split(s[8..]);
      assert s == MARKER + s[8..];
      assert ([""] + r)[1..] == r;
    } else if s != "" {
      UnsplitSplit(s[1..]);
      var r := Split(s[1..]);
      UnsplitHead(s[0], r);
      assert s == [s[0]] + s[1..];
      UnsplitPrefix(r);
      NoMarkerCons(s[0], r[0], s[1..]);
    }
  }

  lemma UnsplitPrefix(r: seq<string>)
    requires r != []
    ensures r[0] <= Unsplit(r)
  {}

  lemma UnsplitHead(c: char, r: seq<string>)
    requires r != []
    ensures Unsplit([[c] + r[0]] + r[1..]) == [c] + Unsplit(r)
  {
    assert ([[c] + r[0]] + r[1..])[1..] == r[1..];
  }
}
