/** What the ranked result list of a search is, told from scores, ranks, dates and ids alone. */
module SearchResults {
  import opened Wrappers
  import opened Ranking
  import opened SearchOrder

  // ----- filtering keeps members and their order -----

  lemma {:induction false} FilterMapHas<A, B>(f: A -> Option<B>, s: seq<A>, x: A)
    requires x in s && f(x).Some?
    ensures f(x).value in FilterMap(f, s)
  {
    if x != s[0] {
      assert s == [s[0]] + s[1..];
      FilterMapHas(f, s[1..], x);
    }
  }

  lemma {:induction false} FilterMapAt<A, B>(f: A -> Option<B>, s: seq<A>, j: nat) returns (l: nat)
    requires j < |FilterMap(f, s)|
    ensures l < |s| && f(s[l]) == Some(FilterMap(f, s)[j])
  {
    var all, rest := FilterMap(f, s), FilterMap(f, s[1..]);
    if f(s[0]).None? {
      l := FilterMapAt(f, s[1..], j);
      l := l + 1;
    } else {
      assert all == [f(s[0]).value] + rest;
      if j == 0 {
        l := 0;
      } else {
        assert all[j] == rest[j - 1];
        l := FilterMapAt(f, s[1..], j - 1);
        l := l + 1;
      }
    }
  }

  /** Two results come from two elements in the same order. */
  lemma {:induction false} FilterMapInOrder<A, B>(f: A -> Option<B>, s: seq<A>, i: nat, j: nat) returns (k: nat, l: nat)
    requires i < j < |FilterMap(f, s)|
    ensures k < l < |s| && f(s[k]) == Some(FilterMap(f, s)[i]) && f(s[l]) == Some(FilterMap(f, s)[j])
  {
    var all, rest := FilterMap(f, s), FilterMap(f, s[1..]);
    if f(s[0]).None? {
      k, l := FilterMapInOrder(f, s[1..], i, j);
      k, l := k + 1, l + 1;
    } else {
      assert all == [f(s[0]).value] + rest;
      if i == 0 {
        assert all[j] == rest[j - 1];
        l := FilterMapAt(f, s[1..], j - 1);
        k, l := 0, l + 1;
      } else {
        assert all[i] == rest[i - 1] && all[j] == rest[j - 1];
        k, l := FilterMapInOrder(f, s[1..], i - 1, j - 1);
        k, l := k + 1, l + 1;
      }
    }
  }

  // ----- shares -----

  /**
   * The share of a tie group at positions `i` to `j` of a ranked list, counted from one, is the weight over
   * the constant plus the middle of those positions.
   */
  lemma ShareMeans(list: seq<Scored>, weight: real, rrfK: real, i: nat, j: nat, k: nat)
    requires rrfK > 0.0 && Ranked(list) && i <= k < j <= |list|
    requires forall m :: 0 <= m < |list| ==> (list[m].score == list[k].score <==> i <= m < j)
    ensures Share(list, weight, rrfK, list[k].id) * (rrfK + (i + 1 + j) as real / 2.0) == weight
  {
    GroupRank(list, i, j, list[k].score);
    ShareAt(list, weight, rrfK, k);
  }

  lemma {:induction false} AboveGrows(list: seq<Scored>, high: real, low: real)
    requires high > low
    ensures CountAbove(list, low) >= CountAbove(list, high) + CountTied(list, high)
  {
    if list != [] { AboveGrows(list[..|list| - 1], high, low); }
  }

  lemma {:induction false} TiedIsThere(list: seq<Scored>, k: nat)
    requires k < |list|
    ensures CountTied(list, list[k].score) >= 1
  {
    if k < |list| - 1 { TiedIsThere(list[..|list| - 1], k); }
  }

  lemma SmallerQuotient(weight: real, a: real, b: real)
    requires weight > 0.0 && 0.0 < a < b
    ensures weight / a > weight / b > 0.0
  {
    assert weight / a - weight / b == weight * (b - a) / (a * b);
  }

  /** In one list the better score gets the larger share, equal scores get equal ones, and absence nothing. */
  lemma BetterRankGetsMore(list: seq<Scored>, weight: real, rrfK: real, k: nat, l: nat)
    requires rrfK > 0.0 && weight > 0.0 && Ranked(list) && k < |list| && l < |list|
    ensures var mine, other := Share(list, weight, rrfK, list[k].id), Share(list, weight, rrfK, list[l].id);
            && (list[k].score > list[l].score ==> mine > other)
            && (list[k].score == list[l].score ==> mine == other)
            && mine > 0.0
  {
    ShareAt(list, weight, rrfK, k);
    ShareAt(list, weight, rrfK, l);
    TiedIsThere(list, k);
    TiedIsThere(list, l);
    var a, b := AverageRank(list, list[k].score), AverageRank(list, list[l].score);
    if list[k].score > list[l].score {
      AboveGrows(list, list[k].score, list[l].score);
      SmallerQuotient(weight, rrfK + a, rrfK + b);
    } else {
      SmallerQuotient(weight, rrfK + a, rrfK + a + 1.0);
    }
  }

  lemma AbsentGetsNothing(list: seq<Scored>, weight: real, rrfK: real, id: nat)
    requires rrfK > 0.0 && forall k :: 0 <= k < |list| ==> list[k].id != id
    ensures Share(list, weight, rrfK, id) == 0.0
  {
  }

  // ----- the two lists and the totals -----

  lemma SortedMembers(f: Entry -> Option<Scored>, entries: seq<Entry>)
    requires DistinctIds(entries) && forall e :: f(e).Some? ==> f(e).value.id == e.id
    ensures forall x :: x in Sorting.Sort(ScoredBefore, FilterMap(f, entries)) <==> x in FilterMap(f, entries)
  {
    OrdersAreStrict();
    ItemsAreComparable(f, entries);
    Sorting.SortWorks(ScoredBefore, FilterMap(f, entries));
    Sorting.SameMembers(Sorting.Sort(ScoredBefore, FilterMap(f, entries)), FilterMap(f, entries));
  }

  /** A list holds exactly the memories with a positive score of its signal, each with that score. */
  lemma ListMembers(entries: seq<Entry>, e: Entry)
    requires DistinctIds(entries) && e in entries
    ensures Scored(e.id, e.keywordScore) in KeywordList(entries) <==> e.keywordScore > 0.0
    ensures Scored(e.id, e.vectorScore) in VectorList(entries) <==> e.vectorScore > 0.0
    ensures Ranked(KeywordList(entries)) && Ranked(VectorList(entries))
  {
    ListIsRanked(KeywordItem, entries);
    ListIsRanked(VectorItem, entries);
    SortedMembers(KeywordItem, entries);
    SortedMembers(VectorItem, entries);
    if e.keywordScore > 0.0 { FilterMapHas(KeywordItem, entries, e); }
    if e.vectorScore > 0.0 { FilterMapHas(VectorItem, entries, e); }
    if Scored(e.id, e.keywordScore) in KeywordList(entries) {
      var x := FilterMapFrom(KeywordItem, entries, Scored(e.id, e.keywordScore));
    }
    if Scored(e.id, e.vectorScore) in VectorList(entries) {
      var x := FilterMapFrom(VectorItem, entries, Scored(e.id, e.vectorScore));
    }
  }

  lemma {:induction false} IdsTellApart(entries: seq<Entry>, a: Entry, b: Entry)
    requires DistinctIds(entries) && a in entries && b in entries && a.id == b.id
    ensures a == b
  {
    assert entries == [entries[0]] + entries[1..];
    if a in entries[1..] && b in entries[1..] { IdsTellApart(entries[1..], a, b); }
  }

  /** Where the item of a memory stands in its list, or that its id is not there. */
  lemma ItemAt(f: Entry -> Option<Scored>, entries: seq<Entry>, e: Entry) returns (k: nat)
    requires DistinctIds(entries) && e in entries && forall x :: f(x).Some? ==> f(x).value.id == x.id
    ensures var list := Sorting.Sort(ScoredBefore, FilterMap(f, entries));
            && Ranked(list)
            && (f(e).Some? ==> k < |list| && list[k] == f(e).value)
            && (f(e).None? ==> forall i :: 0 <= i < |list| ==> list[i].id != e.id)
  {
    var list := Sorting.Sort(ScoredBefore, FilterMap(f, entries));
    ListIsRanked(f, entries);
    SortedMembers(f, entries);
    k := 0;
    if f(e).Some? {
      FilterMapHas(f, entries, e);
      k :| 0 <= k < |list| && list[k] == f(e).value;
    } else {
      forall i | 0 <= i < |list| ensures list[i].id != e.id {
        assert list[i] in list;
        var x := FilterMapFrom(f, entries, list[i]);
        if x.id == e.id { IdsTellApart(entries, x, e); }
      }
    }
  }

  /** Of two memories the one with the better signal has the larger share, one without the signal none. */
  lemma ShareFollowsSignal(
    f: Entry -> Option<Scored>, entries: seq<Entry>, weight: real, rrfK: real, a: Entry, b: Entry)
    requires DistinctIds(entries) && a in entries && b in entries && rrfK > 0.0 && weight > 0.0
    requires forall x :: f(x).Some? ==> f(x).value.id == x.id
    requires f(b).Some? ==> f(a).Some? && f(a).value.score >= f(b).value.score
    ensures var list := Sorting.Sort(ScoredBefore, FilterMap(f, entries));
            var mine, other := Share(list, weight, rrfK, a.id), Share(list, weight, rrfK, b.id);
            && mine >= other
            && (mine == other <==> f(a).None? || (f(b).Some? && f(a).value.score == f(b).value.score))
  {
    var k := ItemAt(f, entries, a);
    var l := ItemAt(f, entries, b);
    var list := Sorting.Sort(ScoredBefore, FilterMap(f, entries));
    if f(b).Some? {
      BetterRankGetsMore(list, weight, rrfK, k, l);
    } else {
      AbsentGetsNothing(list, weight, rrfK, b.id);
      if f(a).Some? {
        BetterRankGetsMore(list, weight, rrfK, k, k);
      } else {
        AbsentGetsNothing(list, weight, rrfK, a.id);
      }
    }
  }

  /** The final score of a memory among these. */
  ghost function Total(entries: seq<Entry>, w: Weights, e: Entry): real
    requires w.rrfK > 0.0
  {
    Final(KeywordList(entries), VectorList(entries), w, e)
  }

  /** The fused share counts by its scale, the other modifiers as they are, and a standing instruction 1000. */
  lemma TotalMeans(entries: seq<Entry>, w: Weights, e: Entry)
    requires w.rrfK > 0.0
    ensures var fused :=
              Share(KeywordList(entries), w.keyword, w.rrfK, e.id)
                + Share(VectorList(entries), w.semantic, w.rrfK, e.id);
            && (!e.standing ==> Total(entries, w, e) == fused * w.fusionScale + e.extra)
            && (e.standing ==> Total(entries, w, e) == Total(entries, w, e.(standing := false)) + 1000.0)
  {
  }

  // ----- the result list -----

  ghost function RankedRows(entries: seq<Entry>, w: Weights): seq<Row>
    requires w.rrfK > 0.0
  {
    Sorting.Sort(RowBefore, FilterMap(RowMaker(KeywordList(entries), VectorList(entries), w), entries))
  }

  lemma RowsAre(entries: seq<Entry>, w: Weights)
    requires w.rrfK > 0.0 && DistinctIds(entries)
    ensures Sorting.Ascending(RowBefore, RankedRows(entries, w))
    ensures forall row ::
              row in RankedRows(entries, w) <==> row.entry in entries && row.total == Total(entries, w, row.entry)
  {
    var f := RowMaker(KeywordList(entries), VectorList(entries), w);
    var rows := FilterMap(f, entries);
    OrdersAreStrict();
    RowsAreComparable(f, entries);
    Sorting.SortWorks(RowBefore, rows);
    Sorting.SameMembers(RankedRows(entries, w), rows);
    forall row ensures row in rows <==> row.entry in entries && row.total == Total(entries, w, row.entry) {
      if row in rows { var e := FilterMapFrom(f, entries, row); }
      if row.entry in entries && row.total == Total(entries, w, row.entry) { FilterMapHas(f, entries, row.entry); }
    }
  }

  /** The results are exactly the memories that no available one replaces. */
  lemma ResultsMembers(entries: seq<Entry>, available: set<nat>, w: Weights, e: Entry)
    requires w.rrfK > 0.0 && DistinctIds(entries)
    ensures e in Results(entries, available, w)
       <==> e in entries && !(e.supersededBy.Some? && e.supersededBy.value in available)
  {
    RowsAre(entries, w);
    var rows, f := RankedRows(entries, w), Standing(available);
    if e in Results(entries, available, w) { var row := FilterMapFrom(f, rows, e); }
    if e in entries && !(e.supersededBy.Some? && e.supersededBy.value in available) {
      FilterMapHas(f, rows, Row(e, Total(entries, w, e)));
    }
  }

  /**
   * The results are in order: a higher final score first; between equal ones the later update; then the
   * smaller id. So no memory comes twice.
   */
  lemma ResultsAreRanked(entries: seq<Entry>, available: set<nat>, w: Weights, i: nat, j: nat)
    requires w.rrfK > 0.0 && DistinctIds(entries) && i < j < |Results(entries, available, w)|
    ensures var a, b := Results(entries, available, w)[i], Results(entries, available, w)[j];
            var mine, other := Total(entries, w, a), Total(entries, w, b);
            && mine >= other
            && (mine == other ==> a.updatedAt >= b.updatedAt)
            && (mine == other && a.updatedAt == b.updatedAt ==> a.id < b.id)
  {
    RowsAre(entries, w);
    var rows := RankedRows(entries, w);
    var k, l := FilterMapInOrder(Standing(available), rows, i, j);
    assert RowBefore(rows[k], rows[l]) && rows[k] in rows && rows[l] in rows;
  }

  /** No worse in either signal and better in one of them, where only positive signals count. */
  predicate BetterMatch(a: Entry, b: Entry) {
    && a.keywordScore >= b.keywordScore && a.vectorScore >= b.vectorScore
    && ((a.keywordScore > b.keywordScore && a.keywordScore > 0.0)
        || (a.vectorScore > b.vectorScore && a.vectorScore > 0.0))
  }

  lemma BetterMatchIsFusedHigher(entries: seq<Entry>, w: Weights, a: Entry, b: Entry)
    requires w.rrfK > 0.0 && w.keyword > 0.0 && w.semantic > 0.0 && DistinctIds(entries)
    requires a in entries && b in entries && BetterMatch(a, b)
    ensures var keywords, vectors := KeywordList(entries), VectorList(entries);
            Fused(keywords, vectors, w, a.id) > Fused(keywords, vectors, w, b.id)
  {
    ShareFollowsSignal(KeywordItem, entries, w.keyword, w.rrfK, a, b);
    ShareFollowsSignal(VectorItem, entries, w.semantic, w.rrfK, a, b);
  }

  /** What a memory's total adds to its scaled share. */
  function Modifiers(e: Entry): real { e.extra + if e.standing then 1000.0 else 0.0 }

  /** A total is made up of a share and what is added to it. */
  predicate MadeUp(total: real, share: real, scale: real, more: real) { total == share * scale + more }

  lemma ScaledGrows(x: real, y: real, scale: real, more: real, s: real, t: real)
    requires x > y && scale > 0.0 && MadeUp(s, x, scale, more) && MadeUp(t, y, scale, more)
    ensures s > t
  {
    assert s - t == (x - y) * scale;
  }

  lemma TotalIsMadeUp(entries: seq<Entry>, w: Weights, e: Entry) returns (fused: real, total: real)
    requires w.rrfK > 0.0
    ensures fused == Fused(KeywordList(entries), VectorList(entries), w, e.id) && total == Total(entries, w, e)
    ensures MadeUp(total, fused, w.fusionScale, Modifiers(e))
  {
    fused := Fused(KeywordList(entries), VectorList(entries), w, e.id);
    total := Total(entries, w, e);
  }

  lemma HigherFusedIsHigherTotal(entries: seq<Entry>, w: Weights, a: Entry, b: Entry)
    returns (higher: real, lower: real)
    requires w.rrfK > 0.0 && w.fusionScale > 0.0 && Modifiers(a) == Modifiers(b)
    requires var keywords, vectors := KeywordList(entries), VectorList(entries);
             Fused(keywords, vectors, w, a.id) > Fused(keywords, vectors, w, b.id)
    ensures higher == Total(entries, w, a) && lower == Total(entries, w, b) && higher > lower
  {
    var x, y;
    x, higher := TotalIsMadeUp(entries, w, a);
    y, lower := TotalIsMadeUp(entries, w, b);
    ScaledGrows(x, y, w.fusionScale, Modifiers(a), higher, lower);
  }

  /** Among results that are alike in everything else, a better match comes first. */
  lemma BetterMatchComesFirst(entries: seq<Entry>, available: set<nat>, w: Weights, i: nat, j: nat)
    requires w.rrfK > 0.0 && w.keyword > 0.0 && w.semantic > 0.0 && w.fusionScale > 0.0 && DistinctIds(entries)
    requires i < |Results(entries, available, w)| && j < |Results(entries, available, w)|
    requires var a, b := Results(entries, available, w)[i], Results(entries, available, w)[j];
             BetterMatch(a, b) && Modifiers(a) == Modifiers(b)
    ensures i < j
  {
    var a, b := Results(entries, available, w)[i], Results(entries, available, w)[j];
    ResultsMembers(entries, available, w, a);
    ResultsMembers(entries, available, w, b);
    BetterMatchIsFusedHigher(entries, w, a, b);
    var higher, lower := HigherFusedIsHigherTotal(entries, w, a, b);
    if j < i { ResultsAreRanked(entries, available, w, j, i); }
  }
}
