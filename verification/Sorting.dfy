/** Stable insertion sort over an arbitrary ordering: the specification of the library
    calls `sort`, `sort_by` and `sorted` that the program makes on vectors. */
module Sorting {
  import opened Seqs

  ghost predicate TotalPreorder<T(!new)>(le: (T, T) -> bool) {
    && (forall a, b :: le(a, b) || le(b, a))
    && (forall a, b, c :: le(a, b) && le(b, c) ==> le(a, c))
  }

  ghost predicate TotalOrder<T(!new)>(le: (T, T) -> bool) {
    && TotalPreorder(le)
    && (forall a, b :: le(a, b) && le(b, a) ==> a == b)
  }

  ghost predicate Sorted<T>(xs: seq<T>, le: (T, T) -> bool) {
    forall i, j :: 0 <= i < j < |xs| ==> le(xs[i], xs[j])
  }

  function Insert<T>(x: T, xs: seq<T>, le: (T, T) -> bool): seq<T> {
    if xs == [] then [x]
    else if le(x, xs[0]) then [x] + xs
    else [xs[0]] + Insert(x, xs[1..], le)
  }

  function SortBy<T>(xs: seq<T>, le: (T, T) -> bool): (r: seq<T>)
    ensures |r| == |xs|
    ensures multiset(r) == multiset(xs)
  {
    if xs == [] then []
    else
      var rest := SortBy(xs[1..], le);
      InsertKeeps(xs[0], rest, le);
      assert xs == [xs[0]] + xs[1..];
      Insert(xs[0], rest, le)
  }

  lemma {:induction false} InsertKeeps<T>(x: T, xs: seq<T>, le: (T, T) -> bool)
    ensures |Insert(x, xs, le)| == |xs| + 1
    ensures multiset(Insert(x, xs, le)) == multiset(xs) + multiset{x}
  {
    if xs == [] {
    } else if le(x, xs[0]) {
    } else {
      InsertKeeps(x, xs[1..], le);
      assert xs == [xs[0]] + xs[1..];
    }
  }

  lemma {:induction false} InsertSorted<T(!new)>(x: T, xs: seq<T>, le: (T, T) -> bool)
    requires TotalPreorder(le) && Sorted(xs, le)
    ensures Sorted(Insert(x, xs, le), le)
  {
    if xs == [] {
    } else if le(x, xs[0]) {
      forall j | 0 <= j < |xs| ensures le(x, xs[j]) {}
    } else {
      InsertSorted(x, xs[1..], le);
      InsertKeeps(x, xs[1..], le);
      var r := Insert(x, xs[1..], le);
      forall j | 0 <= j < |r| ensures le(xs[0], r[j]) {
        assert r[j] in multiset(r);
        assert r[j] == x || r[j] in xs[1..];
      }
    }
  }

  /** Sorting orders the vector. */
  lemma {:induction false} SortSorts<T(!new)>(xs: seq<T>, le: (T, T) -> bool)
    requires TotalPreorder(le)
    ensures Sorted(SortBy(xs, le), le)
  {
    if xs != [] {
      SortSorts(xs[1..], le);
      InsertSorted(xs[0], SortBy(xs[1..], le), le);
    }
  }

  /** Sorting is stable at the front: the first of the least elements comes first. */
  lemma {:induction false} FirstOfLeast<T(!new)>(xs: seq<T>, le: (T, T) -> bool) returns (k: nat)
    requires TotalPreorder(le) && xs != []
    ensures k < |xs| && xs[k] == SortBy(xs, le)[0]
    ensures forall m :: 0 <= m < |xs| ==> le(xs[k], xs[m])
    ensures forall m :: 0 <= m < k ==> !le(xs[m], xs[k])
  {
    k := 0;
    var rest := SortBy(xs[1..], le);
    if rest != [] {
      var j := FirstOfLeast(xs[1..], le);
      assert forall m :: 0 < m < |xs| ==> xs[m] == xs[1..][m - 1];
      if !le(xs[0], rest[0]) { k := j + 1; }
    }
  }

  lemma SameHead<T(!new)>(a: seq<T>, b: seq<T>, le: (T, T) -> bool)
    requires TotalOrder(le) && Sorted(a, le) && Sorted(b, le)
    requires multiset(a) == multiset(b) && a != [] && b != []
    ensures a[0] == b[0] && multiset(a[1..]) == multiset(b[1..])
  {
    assert a[0] in multiset(b) && b[0] in multiset(a);
    assert le(a[0], b[0]) && le(b[0], a[0]);
    assert a == [a[0]] + a[1..] && b == [b[0]] + b[1..];
    assert multiset(a[1..]) == multiset(a) - multiset{a[0]};
    assert multiset(b[1..]) == multiset(b) - multiset{b[0]};
  }

  /** Under a total order a sorted arrangement is unique, so every permutation of a
      vector sorts to the same vector. */
  lemma {:induction false} SortedUnique<T(!new)>(a: seq<T>, b: seq<T>, le: (T, T) -> bool)
    requires TotalOrder(le) && Sorted(a, le) && Sorted(b, le)
    requires multiset(a) == multiset(b)
    ensures a == b
  {
    assert |b| == |multiset(b)| == |multiset(a)| == |a|;
    if a != [] {
      SameHead(a, b, le);
      SortedUnique(a[1..], b[1..], le);
      assert a == [a[0]] + a[1..] && b == [b[0]] + b[1..];
    }
  }

  lemma SortUnique<T(!new)>(a: seq<T>, b: seq<T>, le: (T, T) -> bool)
    requires TotalOrder(le) && multiset(a) == multiset(b)
    ensures SortBy(a, le) == SortBy(b, le)
  {
    SortSorts(a, le);
    SortSorts(b, le);
    SortedUnique(SortBy(a, le), SortBy(b, le), le);
  }

  lemma {:induction false} MapInsert<A, B>(f: A -> B, x: A, xs: seq<A>, le: (A, A) -> bool, le': (B, B) -> bool)
    requires forall y :: y in xs ==> le(x, y) == le'(f(x), f(y))
    ensures Map(f, Insert(x, xs, le)) == Insert(f(x), Map(f, xs), le')
  {
    if xs != [] {
      if le(x, xs[0]) {
        assert Map(f, [x] + xs) == [f(x)] + Map(f, xs);
      } else {
        MapInsert(f, x, xs[1..], le, le');
        assert xs[0] in xs;
        assert Map(f, xs)[1..] == Map(f, xs[1..]);
      }
    }
  }

  /** Sorting commutes with a map that carries one ordering to the other. */
  lemma {:induction false} MapSort<A, B>(f: A -> B, xs: seq<A>, le: (A, A) -> bool, le': (B, B) -> bool)
    requires forall i, j :: 0 <= i < j < |xs| ==> le(xs[i], xs[j]) == le'(f(xs[i]), f(xs[j]))
    ensures Map(f, SortBy(xs, le)) == SortBy(Map(f, xs), le')
  {
    if xs != [] {
      MapSort(f, xs[1..], le, le');
      var rest := SortBy(xs[1..], le);
      forall y | y in rest ensures le(xs[0], y) == le'(f(xs[0]), f(y)) {
        assert y in multiset(rest);
        assert y in xs[1..];
        var j :| 0 <= j < |xs| - 1 && xs[1..][j] == y;
        assert xs[j + 1] == y;
      }
      MapInsert(f, xs[0], rest, le, le');
      assert Map(f, xs)[1..] == Map(f, xs[1..]);
    }
  }
}
