/** Who is suppressed, who is selected, and what is left of a search result, told from the memories' own fields. */
module SearchSelection {
  import opened Wrappers
  import opened SearchOrder
  import opened Suppression

  // ----- suppression -----

  /** An earlier position has the same text, and the same source if that is asked for. */
  ghost predicate HasEarlierCopy(ranked: seq<Entry>, i: nat, sameSource: bool)
    requires i < |ranked|
  {
    exists j :: 0 <= j < i && ranked[j].text == ranked[i].text && (!sameSource || ranked[j].source == ranked[i].source)
  }

  ghost predicate AllDistinct(ranked: seq<Entry>) {
    forall i, j :: 0 <= i < j < |ranked| ==> ranked[i] != ranked[j]
  }

  lemma CopiesAreRepeats(ranked: seq<Entry>, i: nat, sameSource: bool)
    requires i < |ranked|
    ensures Repeats(ranked, i, sameSource) <==> ranked[i].text != "" && HasEarlierCopy(ranked, i, sameSource)
  {
    if HasEarlierCopy(ranked, i, sameSource) {
      var j :| 0 <= j < i && ranked[j].text == ranked[i].text && (!sameSource || ranked[j].source == ranked[i].source);
      assert SameCopy(ranked[j], ranked[i], sameSource);
    }
  }

  lemma {:induction false} SurvivorIsOriginal(ranked: seq<Entry>, n: nat, sameSource: bool, i: nat)
    requires i < |ranked| && n <= |ranked| && AllDistinct(ranked) && ranked[i] in Survivors(ranked, n, sameSource)
    ensures i < n && !Repeats(ranked, i, sameSource)
  {
    if n > 0 && (Repeats(ranked, n - 1, sameSource) || ranked[n - 1] != ranked[i]) {
      SurvivorIsOriginal(ranked, n - 1, sameSource, i);
    }
  }

  /** A memory without a text always stays, any other one exactly if no earlier memory is a copy of it. */
  lemma {:induction false} SurvivesExactly(ranked: seq<Entry>, n: nat, sameSource: bool, i: nat)
    requires i < n <= |ranked| && AllDistinct(ranked)
    ensures ranked[i] in Survivors(ranked, n, sameSource)
       <==> ranked[i].text == "" || !HasEarlierCopy(ranked, i, sameSource)
  {
    CopiesAreRepeats(ranked, i, sameSource);
    if Repeats(ranked, i, sameSource) {
      if ranked[i] in Survivors(ranked, n, sameSource) { SurvivorIsOriginal(ranked, n, sameSource, i); }
    } else {
      SurvivorsAre(ranked, n, sameSource, i);
    }
  }

  /** What is reported of a memory that goes: its id, the id of the first copy, and the rule. */
  lemma {:induction false} RemovedExactly(ranked: seq<Entry>, n: nat, sameSource: bool, i: nat, j: nat)
    requires j < i < n <= |ranked| && ranked[i].text != "" && ranked[j].text == ranked[i].text
    requires !sameSource || ranked[j].source == ranked[i].source
    requires forall k :: 0 <= k < j ==>
               ranked[k].text != ranked[i].text || (sameSource && ranked[k].source != ranked[i].source)
    ensures var removal := Removal(ranked[i].id, ranked[j].id, if sameSource then SameSource else Exact);
            removal in Removals(ranked, n, sameSource)
  {
    if i < n - 1 {
      RemovedExactly(ranked, n - 1, sameSource, i, j);
    } else {
      CopiesAreRepeats(ranked, i, sameSource);
      var first := FirstCopy(ranked, i, sameSource);
      assert SameCopy(ranked[j], ranked[i], sameSource) && SameCopy(ranked[first], ranked[i], sameSource);
      assert first == j;
      var all := Removals(ranked, n, sameSource);
      assert all[|all| - 1].id == ranked[i].id && all[|all| - 1].keptId == ranked[j].id;
    }
  }

  /** At least one position is looked at, 200 unless the caller says otherwise, and never more than there are. */
  lemma LookedMeans(window: Option<int>, n: nat)
    ensures window.None? ==> Looked(window, n) == if n < 200 then n else 200
    ensures window.Some? && window.value >= 1 ==> Looked(window, n) == if n < window.value then n else window.value
    ensures window.Some? && window.value < 1 ==> Looked(window, n) == if n == 0 then 0 else 1
  {
  }

  // ----- the diverse selection -----

  /** How relevant the selection is: the greatest similarity of the query to one of it, never below zero. */
  lemma {:induction false} RelevanceIsGreatest(selected: seq<Entry>, c: Cosines)
    ensures MaxRelevance(selected, c) >= 0.0
    ensures forall k ::
              0 <= k < |selected| && selected[k].embedded ==> c.query(selected[k].id) <= MaxRelevance(selected, c)
    ensures MaxRelevance(selected, c) == 0.0
            || exists k ::
                 0 <= k < |selected| && selected[k].embedded && c.query(selected[k].id) == MaxRelevance(selected, c)
  {
    if selected != [] {
      var n := |selected| - 1;
      RelevanceIsGreatest(selected[..n], c);
      if MaxRelevance(selected, c) != 0.0
        && !(selected[n].embedded && c.query(selected[n].id) == MaxRelevance(selected, c)) {
        var k :| 0 <= k < n && selected[..n][k].embedded
          && c.query(selected[..n][k].id) == MaxRelevance(selected[..n], c);
        assert selected[k] == selected[..n][k];
      }
      forall k | 0 <= k < |selected| && selected[k].embedded
        ensures c.query(selected[k].id) <= MaxRelevance(selected, c)
      {
        if k < n { assert selected[..n][k] == selected[k]; }
      }
    }
  }

  lemma Distributes(x: real, n: real)
    ensures x * (n + 1.0) == x * n + x
  {
  }

  lemma {:induction false} SumIsBetween(m: Entry, selected: seq<Entry>, c: Cosines, low: real, high: real)
    requires forall k :: 0 <= k < |selected| ==> selected[k].embedded && low <= c.pair(m.id, selected[k].id) <= high
    ensures low * |selected| as real <= SimilaritySum(m, selected, c) <= high * |selected| as real
  {
    if selected != [] {
      var n := |selected| - 1;
      forall k | 0 <= k < n ensures selected[..n][k].embedded && low <= c.pair(m.id, selected[..n][k].id) <= high {
        assert selected[..n][k] == selected[k];
      }
      SumIsBetween(m, selected[..n], c, low, high);
      assert |selected| as real == n as real + 1.0;
      Distributes(low, n as real);
      Distributes(high, n as real);
    }
  }

  lemma QuotientIsBetween(low: real, sum: real, high: real, n: real)
    requires n > 0.0 && low * n <= sum <= high * n
    ensures low <= sum / n <= high
  {
    var q := sum / n;
    assert q * n == sum;
    assert (q - low) * n >= 0.0 && (high - q) * n >= 0.0;
  }

  /** The average similarity to selected memories with embeddings lies between the least and the greatest. */
  lemma SimilarityIsAverage(m: Entry, selected: seq<Entry>, c: Cosines, low: real, high: real)
    requires selected != []
    requires forall k :: 0 <= k < |selected| ==> selected[k].embedded && low <= c.pair(m.id, selected[k].id) <= high
    ensures low <= AverageSimilarity(m, selected, c) <= high
  {
    SumIsBetween(m, selected, c, low, high);
    QuotientIsBetween(low, SimilaritySum(m, selected, c), high, |selected| as real);
  }

  lemma PenaltyGrows(lambda: real, low: real, high: real)
    requires lambda > 0.0 && low < high
    ensures lambda * low < lambda * high
  {
    assert lambda * (high - low) > 0.0;
  }

  lemma MarginalIs(m: Entry, selected: seq<Entry>, c: Cosines) returns (penalty: real)
    requires m.embedded
    ensures penalty == c.lambda * AverageSimilarity(m, selected, c)
    ensures Marginal(m, selected, c) == MaxRelevance(selected, c) - penalty
  {
    penalty := c.lambda * AverageSimilarity(m, selected, c);
  }

  /**
   * Diversity: between candidates with embeddings the next pick is never one that is more similar to what
   * is already selected than another candidate, whatever the query is.
   */
  lemma LessSimilarIsPreferred(queue: seq<Entry>, selected: seq<Entry>, c: Cosines, i: nat, j: nat)
    requires i < |queue| && j < |queue| && queue[i].embedded && queue[j].embedded && c.lambda > 0.0
    requires AverageSimilarity(queue[i], selected, c) < AverageSimilarity(queue[j], selected, c)
    ensures BestOf(queue, |queue|, selected, c) != j
  {
    PenaltyGrows(c.lambda, AverageSimilarity(queue[i], selected, c), AverageSimilarity(queue[j], selected, c));
    var p := MarginalIs(queue[i], selected, c);
    var q := MarginalIs(queue[j], selected, c);
    assert Marginal(queue[i], selected, c) > Marginal(queue[j], selected, c);
  }

  /** A candidate without an embedding counts nothing, so a later one wins over it by a positive value only. */
  lemma WithoutEmbedding(queue: seq<Entry>, selected: seq<Entry>, c: Cosines, i: nat, j: nat) returns (penalty: real)
    requires i < j < |queue| && !queue[i].embedded && queue[j].embedded
    ensures penalty == c.lambda * AverageSimilarity(queue[j], selected, c)
    ensures BestOf(queue, |queue|, selected, c) == j ==> MaxRelevance(selected, c) > penalty
  {
    penalty := MarginalIs(queue[j], selected, c);
    var best := BestOf(queue, |queue|, selected, c);
    if best == j { assert Marginal(queue[i], selected, c) < Marginal(queue[best], selected, c); }
  }

  // ----- the final list -----

  lemma {:induction false} MembersOf(queue: seq<Entry>, selected: seq<Entry>, count: nat, c: Cosines, x: Entry)
    requires count <= |queue| && x in Selection(queue, selected, count, c)
    ensures x in queue
  {
    var left := SelectionIsPart(queue, selected, count, c);
    assert x in multiset(Selection(queue, selected, count, c));
    assert x in multiset(queue);
  }

  /**
   * The final list is as long as the limit and the surviving results allow, holds survivors only, and begins
   * with the best result; without diversity it is the beginning of the surviving results.
   */
  lemma FinalListMeans(entries: seq<Entry>, available: set<nat>, w: Ranking.Weights, o: Options, c: Cosines)
    requires w.rrfK > 0.0
    ensures var results := Results(entries, available, w);
            var pool := if o.limit * 10 >= 100 then o.limit * 10 else 100;
            var survivors :=
              if o.exact || o.sameSource then
                Survivors(results, Looked(Some(pool), |results|), o.sameSource)
                  + results[Looked(Some(pool), |results|)..]
              else results;
            var final := FinalList(entries, available, w, o, c);
            && |final| == (if o.limit < |survivors| then o.limit else |survivors|)
            && (forall x :: x in final ==> x in survivors)
            && (final != [] ==> final[0] == survivors[0])
            && (!o.diversity || !c.present ==> final == survivors[..|final|])
  {
    var results := Results(entries, available, w);
    var pool := if o.limit * 10 >= 100 then o.limit * 10 else 100;
    var survivors := Deduped(results, o.exact, o.sameSource, Some(pool));
    var candidates := FirstOf(survivors, pool);
    assert forall x :: x in candidates ==> x in survivors;
    if o.diversity && c.present && |survivors| > 1 {
      if |candidates| > o.limit {
        forall x | x in Diverse(candidates, o.limit, c) ensures x in survivors {
          MembersOf(candidates, [], o.limit, c, x);
        }
      }
      if o.limit >= 1 { TopRankedIsKept(candidates, o.limit, c); }
    }
  }
}
