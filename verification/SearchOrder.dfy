/** From scored memories to the ordered result list: a function of the set of memories alone. */
module SearchOrder {
  import opened Wrappers
  import opened Ranking
  import Sorting

  /**
   * One memory of the pool with its signals: `extra` is the scope score plus the modifiers. Ids and
   * update times are taken by their place in string order. `text` is the normalized content, `source`
   * where it was recorded, and `embedded` says that its embedding fits the query's.
   */
  datatype Entry = Entry(
    id: nat, updatedAt: nat, keywordScore: real, vectorScore: real, extra: real, standing: bool,
    supersededBy: Option<nat>,
    text: string, source: string, embedded: bool)

  datatype Row = Row(entry: Entry, total: real)

  const STANDING_GATE: real := 1000.0

  /** The results that `f` gives, in order; `None` is left out. */
  function FilterMap<A, B>(f: A -> Option<B>, s: seq<A>): seq<B> {
    if s == [] then []
    else
      var rest := FilterMap(f, s[1..]);
      match f(s[0])
      case None => rest
      case Some(y) => [y] + rest
  }

  lemma {:induction false} FilterMapOfBoth<A, B>(f: A -> Option<B>, s: seq<A>, t: seq<A>)
    ensures FilterMap(f, s + t) == FilterMap(f, s) + FilterMap(f, t)
  {
    if s == [] {
      assert s + t == t;
    } else {
      FilterMapOfBoth(f, s[1..], t);
      assert (s + t)[1..] == s[1..] + t;
    }
  }

  function Without<A>(s: seq<A>, i: nat): seq<A>
    requires i < |s|
  {
    s[..i] + s[i + 1..]
  }

  lemma SplitAt<A>(s: seq<A>, i: nat)
    requires i < |s|
    ensures s == s[..i] + ([s[i]] + s[i + 1..])
  {
  }

  lemma TakeOut<A>(s: seq<A>, i: nat)
    requires i < |s|
    ensures multiset(s) == multiset{s[i]} + multiset(Without(s, i))
  {
    SplitAt(s, i);
  }

  lemma SumInThree<B>(a: seq<B>, b: seq<B>, c: seq<B>)
    ensures multiset(a + (b + c)) == multiset(b) + multiset(a + c)
  {
  }

  lemma FilterMapTakeOut<A, B>(f: A -> Option<B>, s: seq<A>, i: nat)
    requires i < |s|
    ensures multiset(FilterMap(f, s)) == multiset(FilterMap(f, [s[i]])) + multiset(FilterMap(f, Without(s, i)))
  {
    var low, high := s[..i], s[i + 1..];
    SplitAt(s, i);
    FilterMapOfBoth(f, low, [s[i]] + high);
    FilterMapOfBoth(f, [s[i]], high);
    FilterMapOfBoth(f, low, high);
    SumInThree(FilterMap(f, low), FilterMap(f, [s[i]]), FilterMap(f, high));
  }

  lemma Cancel<A>(x: A, a: multiset<A>, b: multiset<A>)
    requires multiset{x} + a == multiset{x} + b
    ensures a == b
  {
    assert a == (multiset{x} + a) - multiset{x};
    assert b == (multiset{x} + b) - multiset{x};
  }

  /** The same elements in another order give the same results in another order. */
  lemma {:induction false} FilterMapIgnoresOrder<A, B>(f: A -> Option<B>, s: seq<A>, t: seq<A>)
    requires multiset(s) == multiset(t)
    ensures multiset(FilterMap(f, s)) == multiset(FilterMap(f, t))
  {
    assert |multiset(s)| == |s| && |multiset(t)| == |t|;
    if s != [] {
      assert s[0] in multiset(t);
      var i :| 0 <= i < |t| && t[i] == s[0];
      TakeOut(s, 0);
      TakeOut(t, i);
      FilterMapTakeOut(f, s, 0);
      FilterMapTakeOut(f, t, i);
      Cancel(s[0], multiset(Without(s, 0)), multiset(Without(t, i)));
      FilterMapIgnoresOrder(f, Without(s, 0), Without(t, i));
    }
  }

  lemma {:induction false} FilterMapFrom<A, B>(f: A -> Option<B>, s: seq<A>, y: B) returns (x: A)
    requires y in FilterMap(f, s)
    ensures x in s && f(x) == Some(y)
  {
    if f(s[0]) == Some(y) {
      x := s[0];
    } else {
      x := FilterMapFrom(f, s[1..], y);
    }
  }

  // ----- the two signal lists -----

  function KeywordItem(e: Entry): Option<Scored> {
    if e.keywordScore > 0.0 then Some(Scored(e.id, e.keywordScore)) else None
  }

  function VectorItem(e: Entry): Option<Scored> {
    if e.vectorScore > 0.0 then Some(Scored(e.id, e.vectorScore)) else None
  }

  /** Higher score first, then smaller id. */
  predicate ScoredBefore(a: Scored, b: Scored) { a.score > b.score || (a.score == b.score && a.id < b.id) }

  function KeywordList(entries: seq<Entry>): seq<Scored> { Sorting.Sort(ScoredBefore, FilterMap(KeywordItem, entries)) }

  function VectorList(entries: seq<Entry>): seq<Scored> { Sorting.Sort(ScoredBefore, FilterMap(VectorItem, entries)) }

  // ----- the final order -----

  ghost function Final(keywords: seq<Scored>, vectors: seq<Scored>, w: Weights, e: Entry): real
    requires w.rrfK > 0.0
  {
    Fused(keywords, vectors, w, e.id) * w.fusionScale + e.extra + if e.standing then STANDING_GATE else 0.0
  }

  ghost function RowMaker(keywords: seq<Scored>, vectors: seq<Scored>, w: Weights): Entry -> Option<Row>
    requires w.rrfK > 0.0
  {
    (e: Entry) => Some(Row(e, Final(keywords, vectors, w, e)))
  }

  /** Higher total first, then the later update, then the smaller id. */
  predicate RowBefore(a: Row, b: Row) {
    || a.total > b.total
    || (a.total == b.total && a.entry.updatedAt > b.entry.updatedAt)
    || (a.total == b.total && a.entry.updatedAt == b.entry.updatedAt && a.entry.id < b.entry.id)
  }

  /** A memory gives way to its replacement only when that one is available. */
  function Standing(available: set<nat>): Row -> Option<Entry> {
    (row: Row) =>
      if row.entry.supersededBy.Some? && row.entry.supersededBy.value in available then None else Some(row.entry)
  }

  /** The ranked memories before duplicate suppression and the limit. */
  ghost function Results(entries: seq<Entry>, available: set<nat>, w: Weights): seq<Entry>
    requires w.rrfK > 0.0
  {
    var rows := FilterMap(RowMaker(KeywordList(entries), VectorList(entries), w), entries);
    FilterMap(Standing(available), Sorting.Sort(RowBefore, rows))
  }

  // ----- order does not matter -----

  ghost predicate DistinctIds(entries: seq<Entry>) {
    entries == [] || ((forall e :: e in entries[1..] ==> e.id != entries[0].id) && DistinctIds(entries[1..]))
  }

  lemma OrdersAreStrict()
    ensures Sorting.StrictOrder(ScoredBefore) && Sorting.StrictOrder(RowBefore)
  {
  }

  /** Items that keep the id of their entry are comparable. */
  lemma {:induction false} ItemsAreComparable(f: Entry -> Option<Scored>, entries: seq<Entry>)
    requires DistinctIds(entries) && forall e :: f(e).Some? ==> f(e).value.id == e.id
    ensures Sorting.Comparable(ScoredBefore, FilterMap(f, entries))
  {
    if entries != [] {
      var rest := FilterMap(f, entries[1..]);
      ItemsAreComparable(f, entries[1..]);
      if f(entries[0]).Some? {
        var x := f(entries[0]).value;
        forall y | y in rest ensures ScoredBefore(x, y) || ScoredBefore(y, x) {
          var e := FilterMapFrom(f, entries[1..], y);
          assert f(e).value.id == e.id;
        }
        assert ([x] + rest)[1..] == rest;
      }
    }
  }

  lemma {:induction false} RowsAreComparable(f: Entry -> Option<Row>, entries: seq<Entry>)
    requires DistinctIds(entries) && forall e :: f(e).Some? ==> f(e).value.entry == e
    ensures Sorting.Comparable(RowBefore, FilterMap(f, entries))
  {
    if entries != [] {
      var rest := FilterMap(f, entries[1..]);
      RowsAreComparable(f, entries[1..]);
      if f(entries[0]).Some? {
        var x := f(entries[0]).value;
        forall y | y in rest ensures RowBefore(x, y) || RowBefore(y, x) {
          var e := FilterMapFrom(f, entries[1..], y);
          assert f(e).value.entry == e;
        }
        assert ([x] + rest)[1..] == rest;
      }
    }
  }

  lemma ListsIgnoreOrder(f: Entry -> Option<Scored>, a: seq<Entry>, b: seq<Entry>)
    requires DistinctIds(a) && DistinctIds(b) && multiset(a) == multiset(b)
    requires forall e :: f(e).Some? ==> f(e).value.id == e.id
    ensures Sorting.Sort(ScoredBefore, FilterMap(f, a)) == Sorting.Sort(ScoredBefore, FilterMap(f, b))
  {
    OrdersAreStrict();
    ItemsAreComparable(f, a);
    ItemsAreComparable(f, b);
    FilterMapIgnoresOrder(f, a, b);
    Sorting.SortIgnoresOrder(ScoredBefore, FilterMap(f, a), FilterMap(f, b));
  }

  /** The ranked results are the same for every order in which the memories come. */
  lemma ResultsIgnoreOrder(a: seq<Entry>, b: seq<Entry>, available: set<nat>, w: Weights)
    requires w.rrfK > 0.0 && DistinctIds(a) && DistinctIds(b) && multiset(a) == multiset(b)
    ensures Results(a, available, w) == Results(b, available, w)
  {
    ListsIgnoreOrder(KeywordItem, a, b);
    ListsIgnoreOrder(VectorItem, a, b);
    var f := RowMaker(KeywordList(a), VectorList(a), w);
    OrdersAreStrict();
    RowsAreComparable(f, a);
    RowsAreComparable(f, b);
    FilterMapIgnoresOrder(f, a, b);
    Sorting.SortIgnoresOrder(RowBefore, FilterMap(f, a), FilterMap(f, b));
  }

  ghost predicate DistinctItems(items: seq<Scored>) {
    items == [] || ((forall y :: y in items[1..] ==> y.id != items[0].id) && DistinctItems(items[1..]))
  }

  lemma {:induction false} ItemIdsAreDistinct(f: Entry -> Option<Scored>, entries: seq<Entry>)
    requires DistinctIds(entries) && forall e :: f(e).Some? ==> f(e).value.id == e.id
    ensures DistinctItems(FilterMap(f, entries))
  {
    if entries != [] {
      var rest := FilterMap(f, entries[1..]);
      ItemIdsAreDistinct(f, entries[1..]);
      if f(entries[0]).Some? {
        var x := f(entries[0]).value;
        forall y | y in rest ensures y.id != x.id {
          var e := FilterMapFrom(f, entries[1..], y);
          assert f(e).value.id == e.id;
        }
        assert ([x] + rest)[1..] == rest;
      }
    }
  }

  lemma {:induction false} OneItemPerId(items: seq<Scored>, x: Scored, y: Scored)
    requires DistinctItems(items) && x in items && y in items && x.id == y.id
    ensures x == y
  {
    assert items == [items[0]] + items[1..];
    if x in items[1..] && y in items[1..] { OneItemPerId(items[1..], x, y); }
  }

  /** The lists that search fuses are ranked: no id twice, scores falling. */
  lemma ListIsRanked(f: Entry -> Option<Scored>, entries: seq<Entry>)
    requires DistinctIds(entries) && forall e :: f(e).Some? ==> f(e).value.id == e.id
    ensures Ranked(Sorting.Sort(ScoredBefore, FilterMap(f, entries)))
  {
    var items := FilterMap(f, entries);
    var sorted := Sorting.Sort(ScoredBefore, items);
    OrdersAreStrict();
    ItemsAreComparable(f, entries);
    Sorting.SortWorks(ScoredBefore, items);
    ItemIdsAreDistinct(f, entries);
    forall i, j | 0 <= i < j < |sorted| ensures sorted[i].id != sorted[j].id {
      assert ScoredBefore(sorted[i], sorted[j]) && sorted[i] in multiset(items) && sorted[j] in multiset(items);
      if sorted[i].id == sorted[j].id { OneItemPerId(items, sorted[i], sorted[j]); }
    }
  }
}
