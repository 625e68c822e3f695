/** Sorting by a strict order, as a library sort does it. */
module Sorting {
  ghost predicate StrictOrder<T(!new)>(less: (T, T) -> bool) {
    && (forall a, b :: less(a, b) ==> !less(b, a))
    && (forall a, b, c :: less(a, b) && less(b, c) ==> less(a, c))
  }

  /** Any two elements of the list are ordered one way or the other. */
  ghost predicate Comparable<T>(less: (T, T) -> bool, s: seq<T>) {
    s == [] || ((forall y :: y in s[1..] ==> less(s[0], y) || less(y, s[0])) && Comparable(less, s[1..]))
  }

  lemma {:induction false} ComparableMeans<T>(less: (T, T) -> bool, s: seq<T>)
    requires forall i, j :: 0 <= i < j < |s| ==> less(s[i], s[j]) || less(s[j], s[i])
    ensures Comparable(less, s)
  {
    if s != [] {
      var rest := s[1..];
      forall i, j | 0 <= i < j < |rest| ensures less(rest[i], rest[j]) || less(rest[j], rest[i]) {
        assert rest[i] == s[i + 1] && rest[j] == s[j + 1];
      }
      ComparableMeans(less, rest);
    }
  }

  ghost predicate Ascending<T>(less: (T, T) -> bool, s: seq<T>) {
    forall i, j :: 0 <= i < j < |s| ==> less(s[i], s[j])
  }

  function Insert<T>(less: (T, T) -> bool, sorted: seq<T>, x: T): seq<T> {
    if sorted == [] || less(x, sorted[0]) then [x] + sorted else [sorted[0]] + Insert(less, sorted[1..], x)
  }

  function Sort<T>(less: (T, T) -> bool, s: seq<T>): seq<T> {
    if s == [] then [] else Insert(less, Sort(less, s[1..]), s[0])
  }

  lemma {:induction false} InsertAdds<T>(less: (T, T) -> bool, sorted: seq<T>, x: T)
    ensures multiset(Insert(less, sorted, x)) == multiset(sorted) + multiset{x}
  {
    if sorted != [] && !less(x, sorted[0]) {
      InsertAdds(less, sorted[1..], x);
      assert sorted == [sorted[0]] + sorted[1..];
    }
  }

  lemma {:induction false} InsertKeeps<T(!new)>(less: (T, T) -> bool, sorted: seq<T>, x: T)
    requires StrictOrder(less) && Ascending(less, sorted) && forall y :: y in sorted ==> less(x, y) || less(y, x)
    ensures Ascending(less, Insert(less, sorted, x))
  {
    if sorted != [] && !less(x, sorted[0]) {
      var first, rest := sorted[0], sorted[1..];
      assert forall i :: 0 <= i < |rest| ==> rest[i] == sorted[i + 1];
      InsertKeeps(less, rest, x);
      var tail := Insert(less, rest, x);
      InsertAdds(less, rest, x);
      forall y | y in tail ensures less(first, y) {
        assert y in multiset(tail);
        if y != x { assert y in rest; }
      }
    }
  }

  lemma SameMembers<T>(a: seq<T>, b: seq<T>)
    requires multiset(a) == multiset(b)
    ensures forall x :: x in a <==> x in b
  {
    forall x ensures x in a <==> x in b {
      assert x in a <==> x in multiset(a);
      assert x in b <==> x in multiset(b);
    }
  }

  /** The sorted list is in order, and holds exactly the elements it was given. */
  lemma {:induction false} SortWorks<T(!new)>(less: (T, T) -> bool, s: seq<T>)
    requires StrictOrder(less) && Comparable(less, s)
    ensures Ascending(less, Sort(less, s)) && multiset(Sort(less, s)) == multiset(s)
  {
    if s != [] {
      var rest := s[1..];
      SortWorks(less, rest);
      var sorted := Sort(less, rest);
      SameMembers(sorted, rest);
      InsertKeeps(less, sorted, s[0]);
      InsertAdds(less, sorted, s[0]);
      assert s == [s[0]] + rest;
    }
  }

  lemma FirstIsLeast<T(!new)>(less: (T, T) -> bool, a: seq<T>, b: seq<T>)
    requires StrictOrder(less) && Ascending(less, a) && Ascending(less, b) && a != [] && multiset(a) == multiset(b)
    ensures b != [] && a[0] == b[0]
  {
    assert a[0] in multiset(b) && b != [] && b[0] in multiset(a);
    var i :| 0 <= i < |b| && b[i] == a[0];
    var j :| 0 <= j < |a| && a[j] == b[0];
    assert i > 0 ==> less(b[0], a[0]);
    assert j > 0 ==> less(a[0], b[0]);
  }

  lemma DropFirst<T(!new)>(less: (T, T) -> bool, a: seq<T>)
    requires a != [] && Ascending(less, a)
    ensures Ascending(less, a[1..]) && multiset(a[1..]) == multiset(a) - multiset{a[0]}
  {
    var rest := a[1..];
    assert a == [a[0]] + rest;
    forall i, j | 0 <= i < j < |rest| ensures less(rest[i], rest[j]) { assert less(a[i + 1], a[j + 1]); }
  }

  /** Only one arrangement is in order. */
  lemma {:induction false} OneArrangement<T(!new)>(less: (T, T) -> bool, a: seq<T>, b: seq<T>)
    requires StrictOrder(less) && Ascending(less, a) && Ascending(less, b) && multiset(a) == multiset(b)
    ensures a == b
  {
    assert |multiset(a)| == |a| && |multiset(b)| == |b|;
    if a != [] {
      FirstIsLeast(less, a, b);
      DropFirst(less, a);
      DropFirst(less, b);
      OneArrangement(less, a[1..], b[1..]);
      assert a == [a[0]] + a[1..] && b == [b[0]] + b[1..];
    }
  }

  /** What comes out does not depend on the order of what goes in. */
  lemma SortIgnoresOrder<T(!new)>(less: (T, T) -> bool, s: seq<T>, t: seq<T>)
    requires StrictOrder(less) && Comparable(less, s) && Comparable(less, t) && multiset(s) == multiset(t)
    ensures Sort(less, s) == Sort(less, t)
  {
    SortWorks(less, s);
    SortWorks(less, t);
    OneArrangement(less, Sort(less, s), Sort(less, t));
  }
}
