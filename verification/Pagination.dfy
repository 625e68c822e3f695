/** Keyset pagination of `list`: newest first, continued after the last memory of the previous page. */
module Pagination {
  import opened Wrappers
  import Sorting

  datatype Memory = Memory(updatedAt: string, id: string, content: string)

  datatype Cursor = Cursor(updatedAt: string, id: string)

  function CursorAt(m: Memory): Cursor { Cursor(m.updatedAt, m.id) }

  /** Strings in code-unit order. */
  predicate Less(a: string, b: string) {
    b != [] && (a == [] || a[0] < b[0] || (a[0] == b[0] && Less(a[1..], b[1..])))
  }

  lemma {:induction false} LessIsTotal(a: string, b: string)
    ensures Less(a, b) || Less(b, a) || a == b
    ensures !(Less(a, b) && Less(b, a)) && !Less(a, a)
  {
    if a != [] {
      LessIsTotal(a[1..], a[1..]);
      if b != [] && a[0] == b[0] {
        LessIsTotal(a[1..], b[1..]);
        assert a == [a[0]] + a[1..] && b == [b[0]] + b[1..];
      }
    }
  }

  lemma {:induction false} LessIsTransitive(a: string, b: string, c: string)
    requires Less(a, b) && Less(b, c)
    ensures Less(a, c)
  {
    if a != [] && a[0] == b[0] == c[0] { LessIsTransitive(a[1..], b[1..], c[1..]); }
  }

  /** The first character in which two strings differ decides, and a proper prefix comes first. */
  ghost predicate DiffersUp(a: string, b: string, k: nat) {
    && k <= |a| && k < |b| && (forall i :: 0 <= i < k ==> a[i] == b[i])
    && (k == |a| || a[k] < b[k])
  }

  lemma {:induction false} LessMeans(a: string, b: string)
    ensures Less(a, b) <==> exists k: nat :: DiffersUp(a, b, k)
  {
    if b == [] || a == [] {
      assert Less(a, b) ==> DiffersUp(a, b, 0);
    } else {
      LessMeans(a[1..], b[1..]);
      if a[0] < b[0] { assert DiffersUp(a, b, 0); }
      if a[0] == b[0] && Less(a[1..], b[1..]) {
        var k: nat :| DiffersUp(a[1..], b[1..], k);
        assert DiffersUp(a, b, k + 1) by {
          forall i | 0 <= i < k + 1 ensures a[i] == b[i] { if i > 0 { assert a[1..][i - 1] == b[1..][i - 1]; } }
        }
      }
      if exists k: nat :: DiffersUp(a, b, k) {
        var k: nat :| DiffersUp(a, b, k);
        if k > 0 { assert DiffersUp(a[1..], b[1..], k - 1); }
      }
    }
  }

  /** Negative when `left` is listed before `right`: later update first, then the larger id. */
  function CompareDescending(left: Cursor, right: Cursor): int {
    if left.updatedAt != right.updatedAt then (if Less(left.updatedAt, right.updatedAt) then 1 else -1)
    else if left.id == right.id then 0
    else if Less(left.id, right.id) then 1 else -1
  }

  /** The comparison is a strict total order on (updatedAt, id). */
  lemma CompareIsOrder(a: Cursor, b: Cursor, c: Cursor)
    ensures CompareDescending(a, b) == -CompareDescending(b, a)
    ensures CompareDescending(a, b) == 0 <==> a == b
    ensures CompareDescending(a, b) < 0 && CompareDescending(b, c) < 0 ==> CompareDescending(a, c) < 0
  {
    LessIsTotal(a.updatedAt, b.updatedAt);
    LessIsTotal(b.updatedAt, c.updatedAt);
    LessIsTotal(a.updatedAt, c.updatedAt);
    LessIsTotal(a.id, b.id);
    LessIsTotal(b.id, c.id);
    LessIsTotal(a.id, c.id);
    if Less(b.updatedAt, a.updatedAt) && Less(c.updatedAt, b.updatedAt) {
      LessIsTransitive(c.updatedAt, b.updatedAt, a.updatedAt);
    }
    if Less(b.id, a.id) && Less(c.id, b.id) { LessIsTransitive(c.id, b.id, a.id); }
  }

  predicate Before(a: Memory, b: Memory) { CompareDescending(CursorAt(a), CursorAt(b)) < 0 }

  /** Listed after the cursor. */
  predicate Behind(m: Memory, cursor: Cursor) { CompareDescending(CursorAt(m), cursor) > 0 }

  ghost predicate Descending(s: seq<Memory>) { forall i, j :: 0 <= i < j < |s| ==> Before(s[i], s[j]) }

  /** No two memories share an id. */
  ghost predicate DistinctIds(s: seq<Memory>) { forall i, j :: 0 <= i < j < |s| ==> s[i].id != s[j].id }

  function Sorted(s: seq<Memory>): seq<Memory> { Sorting.Sort(Before, s) }

  /** The list is sorted, and holds exactly the memories it was given. */
  lemma SortedIsRight(s: seq<Memory>)
    requires DistinctIds(s)
    ensures Descending(Sorted(s)) && multiset(Sorted(s)) == multiset(s)
  {
    forall a, b ensures Before(a, b) ==> !Before(b, a) { CompareIsOrder(CursorAt(a), CursorAt(b), CursorAt(b)); }
    forall a, b, c ensures Before(a, b) && Before(b, c) ==> Before(a, c) {
      CompareIsOrder(CursorAt(a), CursorAt(b), CursorAt(c));
    }
    forall i, j | 0 <= i < j < |s| ensures Before(s[i], s[j]) || Before(s[j], s[i]) {
      CompareIsOrder(CursorAt(s[i]), CursorAt(s[j]), CursorAt(s[j]));
    }
    Sorting.ComparableMeans(Before, s);
    Sorting.SortWorks(Before, s);
  }

  /** The latest update comes first, and among equal ones the largest id. */
  lemma NewestFirst(s: seq<Memory>, i: nat, j: nat)
    requires DistinctIds(s) && i < j < |Sorted(s)|
    ensures var a, b := Sorted(s)[i], Sorted(s)[j];
            Less(b.updatedAt, a.updatedAt) || (a.updatedAt == b.updatedAt && Less(b.id, a.id))
  {
    SortedIsRight(s);
    var a, b := Sorted(s)[i], Sorted(s)[j];
    LessIsTotal(a.updatedAt, b.updatedAt);
    LessIsTotal(a.id, b.id);
    assert Before(a, b);
  }

  function After(s: seq<Memory>, cursor: Option<Cursor>): seq<Memory> {
    if s == [] then []
    else if cursor.None? || Behind(s[0], cursor.value) then [s[0]] + After(s[1..], cursor) else After(s[1..], cursor)
  }

  datatype Query = Query(offset: Option<nat>, cursor: Option<Cursor>, limit: Option<nat>)

  datatype Page = Page(memories: seq<Memory>, next: Option<Cursor>, total: nat, remaining: nat)

  datatype Error = InvalidInput

  function Min(a: nat, b: nat): nat { if a < b then a else b }

  /** JavaScript's `slice`: bounds beyond the end are cut off. */
  function Slice(s: seq<Memory>, start: nat, limit: Option<nat>): seq<Memory> {
    var from := Min(start, |s|);
    s[from..if limit.Some? then Min(from + limit.value, |s|) else |s|]
  }

  function Cut(memories: seq<Memory>, total: nat, q: Query): Page {
    var paginated := q.offset.Some? || q.limit.Some? || q.cursor.Some?;
    var start := if q.offset.Some? then q.offset.value else 0;
    var page := if paginated then Slice(memories, start, q.limit) else memories;
    var more := paginated && |page| > 0 && start + |page| < |memories|;
    Page(page, if more then Some(CursorAt(page[|page| - 1])) else None, total, |memories|)
  }

  /** The pagination of `list`, for the memories that the caller may see. */
  function List(eligible: seq<Memory>, q: Query): Result<Page, Error> {
    if q.cursor.Some? && q.offset.Some? then Err(InvalidInput)
    else Ok(Cut(After(Sorted(eligible), q.cursor), |eligible|, q))
  }

  /** One page of a walk. */
  function PageAt(eligible: seq<Memory>, cursor: Option<Cursor>, limit: nat): (page: Page) {
    List(eligible, Query(None, cursor, Some(limit))).value
  }

  // ----- one page -----

  /** Cursor and offset exclude each other; any other query gets a page of the memories behind its cursor. */
  lemma RefusedExactly(eligible: seq<Memory>, q: Query)
    ensures List(eligible, q) == Err(InvalidInput) <==> q.cursor.Some? && q.offset.Some?
  {
  }

  /** A query without offset, limit and cursor gets everything on one page. */
  lemma UnpagedMeans(eligible: seq<Memory>)
    ensures var page := List(eligible, Query(None, None, None)).value;
            page.memories == After(Sorted(eligible), None) && page.next.None?
  {
  }

  /**
   * The page starts at the offset, holds as many memories as limit and list allow, and carries a cursor at
   * its last memory exactly if the list goes on behind it; the counts are of all and of those behind the
   * cursor.
   */
  lemma PageMeans(eligible: seq<Memory>, q: Query)
    requires q.cursor.None? || q.offset.None?
    requires q.offset.Some? || q.limit.Some? || q.cursor.Some?
    ensures var page, list := List(eligible, q).value, After(Sorted(eligible), q.cursor);
            var start := if q.offset.Some? then q.offset.value else 0;
            var left := if start < |list| then |list| - start else 0;
            && page.total == |eligible| && page.remaining == |list|
            && |page.memories| == (if q.limit.Some? && q.limit.value < left then q.limit.value else left)
            && (forall k :: 0 <= k < |page.memories| ==> page.memories[k] == list[start + k])
            && (page.next.Some? <==> page.memories != [] && |page.memories| < left)
            && (page.next.Some? ==>
                  var last := page.memories[|page.memories| - 1];
                  page.next == Some(Cursor(last.updatedAt, last.id)))
  {
  }

  // ----- a store that does not change -----

  lemma {:induction false} AfterNothing(s: seq<Memory>)
    ensures After(s, None) == s
  {
    if s != [] { AfterNothing(s[1..]); }
  }

  lemma {:induction false} AllAfter(s: seq<Memory>, cursor: Cursor)
    requires forall i :: 0 <= i < |s| ==> Behind(s[i], cursor)
    ensures After(s, Some(cursor)) == s
  {
    if s != [] { AllAfter(s[1..], cursor); }
  }

  /** In a sorted list, what comes after the cursor of a memory is the rest of the list. */
  lemma {:induction false} AfterIsRest(s: seq<Memory>, k: nat)
    requires Descending(s) && 0 < k <= |s|
    ensures After(s, Some(CursorAt(s[k - 1]))) == s[k..]
  {
    var cursor, rest := CursorAt(s[k - 1]), s[1..];
    CompareIsOrder(CursorAt(s[0]), cursor, cursor);
    if k == 1 {
      forall i | 0 <= i < |rest| ensures Behind(rest[i], cursor) {
        CompareIsOrder(CursorAt(s[0]), CursorAt(s[i + 1]), cursor);
      }
      AllAfter(rest, cursor);
    } else {
      assert Before(s[0], s[k - 1]);
      AfterIsRest(rest, k - 1);
      assert rest[k - 1..] == s[k..];
    }
  }

  /** Following `nextCursor` from `cursor`, for at most `fuel` pages that `fetch` returns. */
  function Walk(fetch: Option<Cursor> -> Page, cursor: Option<Cursor>, fuel: nat): seq<Memory>
    decreases fuel
  {
    if fuel == 0 then []
    else
      var page := fetch(cursor);
      page.memories + if page.next.Some? then Walk(fetch, page.next, fuel - 1) else []
  }

  /** The first `limit` of `memories`, with a cursor at the last of them if there are more. */
  ghost predicate IsPrefixPage(page: Page, memories: seq<Memory>, limit: nat) {
    var n := Min(limit, |memories|);
    && page.memories == memories[..n] && (page.next.Some? <==> n < |memories|)
    && (page.next.Some? ==> n > 0 && page.next.value == CursorAt(memories[n - 1]))
  }

  lemma CutIsPrefix(memories: seq<Memory>, total: nat, cursor: Option<Cursor>, limit: nat)
    requires limit >= 1
    ensures IsPrefixPage(Cut(memories, total, Query(None, cursor, Some(limit))), memories, limit)
  {
    var n := Min(limit, |memories|);
    assert memories[0..n] == memories[..n];
  }

  /** The cursor stands before position `k` of the list. */
  ghost predicate StandsAt(list: seq<Memory>, cursor: Option<Cursor>, k: nat) {
    k <= |list| && if cursor.None? then k == 0 else k > 0 && cursor.value == CursorAt(list[k - 1])
  }

  lemma RestAt(list: seq<Memory>, cursor: Option<Cursor>, k: nat)
    requires Descending(list) && StandsAt(list, cursor, k)
    ensures After(list, cursor) == list[k..]
  {
    if cursor.Some? { AfterIsRest(list, k); } else { AfterNothing(list); }
  }

  lemma PrefixAt(list: seq<Memory>, k: nat, page: Page, limit: nat)
    requires k <= |list| && limit >= 1 && IsPrefixPage(page, list[k..], limit)
    ensures var n := Min(k + limit, |list|);
            && k <= n && page.memories == list[k..n] && (page.next.Some? <==> n < |list|)
            && (page.next.Some? ==> n > k && StandsAt(list, page.next, n))
  {
    var rest := list[k..];
    var n := Min(limit, |rest|);
    assert rest[..n] == list[k..k + n];
    assert n > 0 ==> rest[n - 1] == list[k + n - 1];
  }

  /** The page holds the memories from position `k` on, and its cursor stands behind them. */
  ghost predicate Fills(page: Page, list: seq<Memory>, limit: nat, k: nat) {
    var n := Min(k + limit, |list|);
    && k <= n && page.memories == list[k..n] && (page.next.Some? <==> n < |list|)
    && (page.next.Some? ==> n > k && StandsAt(list, page.next, n))
  }

  /** A page taken at position `k` of the sorted list. */
  lemma NextPage(eligible: seq<Memory>, cursor: Option<Cursor>, limit: nat, k: nat)
    requires DistinctIds(eligible) && limit >= 1 && StandsAt(Sorted(eligible), cursor, k)
    ensures Fills(PageAt(eligible, cursor, limit), Sorted(eligible), limit, k)
  {
    var list := Sorted(eligible);
    SortedIsRight(eligible);
    RestAt(list, cursor, k);
    CutIsPrefix(list[k..], |eligible|, cursor, limit);
    PrefixAt(list, k, PageAt(eligible, cursor, limit), limit);
  }

  /** Whatever position a cursor stands at, the page fetched there holds the memories from it on. */
  ghost predicate Serves(fetch: Option<Cursor> -> Page, list: seq<Memory>, limit: nat) {
    forall cursor, k {:trigger Fills(fetch(cursor), list, limit, k)} ::
      StandsAt(list, cursor, k) ==> Fills(fetch(cursor), list, limit, k)
  }

  /** One page and the walk that continues behind it. */
  lemma WalkOn(fetch: Option<Cursor> -> Page, list: seq<Memory>, cursor: Option<Cursor>, limit: nat, fuel: nat, k: nat)
    requires k <= |list| && fuel > 0 && Fills(fetch(cursor), list, limit, k)
    requires var next := fetch(cursor).next;
             next.Some? ==> Walk(fetch, next, fuel - 1) == list[Min(k + limit, |list|)..]
    ensures Walk(fetch, cursor, fuel) == list[k..]
  {
    var n := Min(k + limit, |list|);
    assert list[k..n] + list[n..] == list[k..];
  }

  lemma {:induction false} WalkFrom(
    fetch: Option<Cursor> -> Page, list: seq<Memory>, cursor: Option<Cursor>, limit: nat, fuel: nat, k: nat)
    requires Serves(fetch, list, limit) && limit >= 1 && StandsAt(list, cursor, k) && fuel > |list| - k
    ensures Walk(fetch, cursor, fuel) == list[k..]
    decreases fuel
  {
    assert Fills(fetch(cursor), list, limit, k);
    if fetch(cursor).next.Some? {
      WalkFrom(fetch, list, fetch(cursor).next, limit, fuel - 1, Min(k + limit, |list|));
    }
    WalkOn(fetch, list, cursor, limit, fuel, k);
  }

  /**
   * Following `nextCursor` from the start, with any limit of at least one, ends within one page per
   * memory, and the pages put together are the whole sorted list.
   */
  lemma PagesAreTheList(eligible: seq<Memory>, limit: nat, fuel: nat)
    requires DistinctIds(eligible) && limit >= 1 && fuel > |eligible|
    ensures Walk(cursor => PageAt(eligible, cursor, limit), None, fuel) == Sorted(eligible)
  {
    var fetch, list := (cursor: Option<Cursor>) => PageAt(eligible, cursor, limit), Sorted(eligible);
    SortedIsRight(eligible);
    assert |multiset(list)| == |multiset(eligible)|;
    forall cursor, k | StandsAt(list, cursor, k) ensures Fills(fetch(cursor), list, limit, k) {
      NextPage(eligible, cursor, limit, k);
    }
    WalkFrom(fetch, list, None, limit, fuel, 0);
    assert list[0..] == list;
  }

  // ----- a store that changes between pages -----

  /** The pages of a walk; page `i` is taken from the `i`-th state of the store. */
  function Tour(stores: seq<seq<Memory>>, cursor: Option<Cursor>, limit: nat): seq<Page>
    decreases |stores|
  {
    if stores == [] then []
    else
      var page := PageAt(stores[0], cursor, limit);
      [page] + if page.next.Some? then Tour(stores[1..], page.next, limit) else []
  }

  /** The walk came to its last page. */
  predicate Ended(pages: seq<Page>) { pages != [] && pages[|pages| - 1].next.None? }

  ghost predicate Listed(m: Memory, cursor: Option<Cursor>) { cursor.None? || Behind(m, cursor.value) }

  /** The filtered list: sorted, after the cursor, and nothing of that left out. */
  lemma {:induction false} AfterKeeps(s: seq<Memory>, cursor: Option<Cursor>)
    requires Descending(s)
    ensures Descending(After(s, cursor)) && forall m :: m in After(s, cursor) <==> m in s && Listed(m, cursor)
  {
    if s != [] {
      AfterKeeps(s[1..], cursor);
      assert s == [s[0]] + s[1..];
      forall m | m in s[1..] ensures Before(s[0], m) {
        var i :| 0 <= i < |s[1..]| && s[1..][i] == m;
        assert m == s[i + 1];
      }
    }
  }

  /** A page is in order, after the cursor, and, up to its last memory or the end, complete. */
  ghost predicate Fair(page: Page, eligible: seq<Memory>, cursor: Option<Cursor>) {
    && Descending(page.memories) && (forall m :: m in page.memories ==> m in eligible && Listed(m, cursor))
    && (page.next.None? ==> forall m :: m in eligible && Listed(m, cursor) ==> m in page.memories)
    && (page.next.Some? ==>
          && page.memories != [] && page.next.value == CursorAt(page.memories[|page.memories| - 1])
          && forall m :: m in eligible && Listed(m, cursor) ==> m in page.memories || Behind(m, page.next.value))
  }

  lemma PrefixIsFair(page: Page, rest: seq<Memory>, eligible: seq<Memory>, cursor: Option<Cursor>, limit: nat)
    requires limit >= 1 && IsPrefixPage(page, rest, limit) && Descending(rest)
    requires forall m :: m in rest <==> m in eligible && Listed(m, cursor)
    ensures Fair(page, eligible, cursor)
  {
    var n := Min(limit, |rest|);
    forall m | m in rest ensures m in rest[..n] || (n < |rest| && Behind(m, CursorAt(rest[n - 1]))) {
      var i :| 0 <= i < |rest| && rest[i] == m;
      if i >= n { CompareIsOrder(CursorAt(rest[n - 1]), CursorAt(m), CursorAt(m)); } else { assert rest[..n][i] == m; }
    }
    assert forall m :: m in rest[..n] ==> m in rest;
  }

  lemma PageIsFair(eligible: seq<Memory>, cursor: Option<Cursor>, limit: nat)
    requires DistinctIds(eligible) && limit >= 1
    ensures Fair(PageAt(eligible, cursor, limit), eligible, cursor)
  {
    SortedIsRight(eligible);
    var list := Sorted(eligible);
    forall m ensures m in list <==> m in eligible {
      assert m in list <==> m in multiset(list);
      assert m in eligible <==> m in multiset(eligible);
    }
    AfterKeeps(list, cursor);
    var rest := After(list, cursor);
    CutIsPrefix(rest, |eligible|, cursor, limit);
    PrefixIsFair(PageAt(eligible, cursor, limit), rest, eligible, cursor, limit);
  }

  /** Every page is fair to the state it is taken from, and continues where the one before it ended. */
  ghost predicate FairTour(stores: seq<seq<Memory>>, pages: seq<Page>, cursor: Option<Cursor>)
    decreases |pages|
  {
    pages == [] || (
      && stores != [] && Fair(pages[0], stores[0], cursor)
      && if pages[0].next.Some? then FairTour(stores[1..], pages[1..], pages[0].next) else |pages| == 1)
  }

  ghost predicate AllDistinct(stores: seq<seq<Memory>>) { forall i :: 0 <= i < |stores| ==> DistinctIds(stores[i]) }

  lemma {:induction false} TourIsFair(stores: seq<seq<Memory>>, cursor: Option<Cursor>, limit: nat)
    requires AllDistinct(stores) && limit >= 1
    ensures FairTour(stores, Tour(stores, cursor, limit), cursor)
    decreases |stores|
  {
    if stores != [] {
      var page := PageAt(stores[0], cursor, limit);
      PageIsFair(stores[0], cursor, limit);
      if page.next.Some? {
        TourIsFair(stores[1..], page.next, limit);
        assert ([page] + Tour(stores[1..], page.next, limit))[1..] == Tour(stores[1..], page.next, limit);
      } else {
        assert [page] + [] == [page];
      }
    }
  }

  /** How often a memory of this key is delivered. */
  function Occurrences(s: seq<Memory>, at: Cursor): nat {
    if s == [] then 0 else Occurrences(s[1..], at) + if CursorAt(s[0]) == at then 1 else 0
  }

  function Deliveries(pages: seq<Page>, at: Cursor): nat {
    if pages == [] then 0 else Occurrences(pages[0].memories, at) + Deliveries(pages[1..], at)
  }

  ghost predicate Holds(s: seq<Memory>, at: Cursor) { exists m :: m in s && CursorAt(m) == at }

  lemma {:induction false} OccursOnce(s: seq<Memory>, at: Cursor)
    requires Descending(s)
    ensures Occurrences(s, at) == if Holds(s, at) then 1 else 0
  {
    if s != [] {
      OccursOnce(s[1..], at);
      assert s == [s[0]] + s[1..];
      forall m | m in s[1..] ensures CursorAt(m) != CursorAt(s[0]) {
        var i :| 0 <= i < |s[1..]| && s[1..][i] == m;
        assert m == s[i + 1];
        CompareIsOrder(CursorAt(s[0]), CursorAt(m), CursorAt(m));
      }
    }
  }

  lemma NotBehindLast(s: seq<Memory>, m: Memory)
    requires Descending(s) && m in s
    ensures CompareDescending(CursorAt(m), CursorAt(s[|s| - 1])) <= 0
  {
    var i :| 0 <= i < |s| && s[i] == m;
    CompareIsOrder(CursorAt(m), CursorAt(m), CursorAt(m));
    assert i < |s| - 1 ==> Before(s[i], s[|s| - 1]);
  }

  /** A page that starts behind a key does not hold it, and ends behind it too. */
  lemma PageBeyond(page: Page, eligible: seq<Memory>, cursor: Cursor, at: Cursor)
    requires Fair(page, eligible, Some(cursor)) && CompareDescending(at, cursor) <= 0
    ensures Occurrences(page.memories, at) == 0
    ensures page.next.Some? ==> CompareDescending(at, page.next.value) <= 0
  {
    OccursOnce(page.memories, at);
    CompareIsOrder(at, at, at);
    forall m | m in page.memories ensures CompareDescending(at, CursorAt(m)) < 0 {
      CompareIsOrder(at, cursor, CursorAt(m));
      CompareIsOrder(cursor, CursorAt(m), CursorAt(m));
    }
    if page.next.Some? { assert page.memories[|page.memories| - 1] in page.memories; }
    assert !Holds(page.memories, at);
  }

  /** Nothing at or before the cursor is delivered again. */
  lemma {:induction false} NeverAgain(stores: seq<seq<Memory>>, pages: seq<Page>, cursor: Cursor, at: Cursor)
    requires FairTour(stores, pages, Some(cursor)) && CompareDescending(at, cursor) <= 0
    ensures Deliveries(pages, at) == 0
    decreases |pages|
  {
    if pages != [] {
      PageBeyond(pages[0], stores[0], cursor, at);
      if pages[0].next.Some? {
        NeverAgain(stores[1..], pages[1..], pages[0].next.value, at);
      }
    }
  }

  /** No key is delivered twice. */
  lemma {:induction false} AtMostOnce(stores: seq<seq<Memory>>, pages: seq<Page>, cursor: Option<Cursor>, at: Cursor)
    requires FairTour(stores, pages, cursor)
    ensures Deliveries(pages, at) <= 1
    decreases |pages|
  {
    if pages != [] {
      var page := pages[0];
      OccursOnce(page.memories, at);
      if page.next.Some? {
        if Holds(page.memories, at) {
          var m :| m in page.memories && CursorAt(m) == at;
          NotBehindLast(page.memories, m);
          NeverAgain(stores[1..], pages[1..], page.next.value, at);
        } else {
          AtMostOnce(stores[1..], pages[1..], page.next, at);
        }
      }
    }
  }

  /** A key still to come that every state holds is delivered, if the walk comes to its end. */
  lemma {:induction false} Delivered(stores: seq<seq<Memory>>, pages: seq<Page>, cursor: Option<Cursor>, at: Cursor)
    requires FairTour(stores, pages, cursor) && Ended(pages)
    requires forall i :: 0 <= i < |stores| ==> Holds(stores[i], at)
    requires cursor.None? || CompareDescending(at, cursor.value) > 0
    ensures Deliveries(pages, at) >= 1
    decreases |pages|
  {
    var page := pages[0];
    OccursOnce(page.memories, at);
    assert Holds(stores[0], at);
    var m :| m in stores[0] && CursorAt(m) == at;
    if page.next.Some? && m !in page.memories {
      Delivered(stores[1..], pages[1..], page.next, at);
    }
  }

  /**
   * Whatever else is added, removed or touched between the pages of a finished walk, a memory that stays
   * eligible with the same `updatedAt` and id is delivered exactly once, and nothing is delivered twice.
   */
  lemma StableMemoriesAppearOnce(stores: seq<seq<Memory>>, limit: nat, at: Cursor)
    requires AllDistinct(stores) && limit >= 1
    ensures Deliveries(Tour(stores, None, limit), at) <= 1
    ensures Ended(Tour(stores, None, limit)) && (forall i :: 0 <= i < |stores| ==> Holds(stores[i], at))
        ==> Deliveries(Tour(stores, None, limit), at) == 1
  {
    var pages := Tour(stores, None, limit);
    TourIsFair(stores, None, limit);
    AtMostOnce(stores, pages, None, at);
    if Ended(pages) && forall i :: 0 <= i < |stores| ==> Holds(stores[i], at) {
      Delivered(stores, pages, None, at);
    }
  }
}
