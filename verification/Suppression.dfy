/** After the ranking: copies of one text are suppressed, and a diverse selection is made. */
module Suppression {
  import opened Wrappers
  import opened SearchOrder
  import Ranking

  // ----- copies of one text -----

  datatype Reason = Exact | SameSource

  datatype Removal = Removal(id: nat, keptId: nat, reason: Reason)

  const DEFAULT_WINDOW := 200

  predicate SameCopy(a: Entry, b: Entry, sameSource: bool) { a.text == b.text && (sameSource ==> a.source == b.source) }

  /** Position `i` carries a text that an earlier position carried, from the same source if that matters. */
  ghost predicate Repeats(ranked: seq<Entry>, i: nat, sameSource: bool)
    requires i < |ranked|
  {
    ranked[i].text != "" && exists j :: 0 <= j < i && SameCopy(ranked[j], ranked[i], sameSource)
  }

  /** The first position with the same copy as position `i`, looking from `from` on. */
  ghost function FirstCopyFrom(ranked: seq<Entry>, from: nat, i: nat, sameSource: bool): (j: nat)
    requires from <= i < |ranked|
    ensures from <= j <= i && SameCopy(ranked[j], ranked[i], sameSource)
    ensures forall k :: from <= k < j ==> !SameCopy(ranked[k], ranked[i], sameSource)
    decreases i - from
  {
    if SameCopy(ranked[from], ranked[i], sameSource) then from else FirstCopyFrom(ranked, from + 1, i, sameSource)
  }

  ghost function FirstCopy(ranked: seq<Entry>, i: nat, sameSource: bool): (j: nat)
    requires i < |ranked|
    ensures j <= i && SameCopy(ranked[j], ranked[i], sameSource)
    ensures forall k :: 0 <= k < j ==> !SameCopy(ranked[k], ranked[i], sameSource)
  {
    FirstCopyFrom(ranked, 0, i, sameSource)
  }

  /** What is left of the first `n` positions. */
  ghost function Survivors(ranked: seq<Entry>, n: nat, sameSource: bool): seq<Entry>
    requires n <= |ranked|
  {
    if n == 0 then []
    else Survivors(ranked, n - 1, sameSource) + if Repeats(ranked, n - 1, sameSource) then [] else [ranked[n - 1]]
  }

  ghost function Removals(ranked: seq<Entry>, n: nat, sameSource: bool): seq<Removal>
    requires n <= |ranked|
  {
    if n == 0 then []
    else
      Removals(ranked, n - 1, sameSource)
      + if !Repeats(ranked, n - 1, sameSource) then []
        else [Removal(ranked[n - 1].id, ranked[FirstCopy(ranked, n - 1, sameSource)].id,
          if sameSource then SameSource else Exact)]
  }

  /** How many positions are looked at. */
  function Looked(window: Option<int>, n: nat): nat {
    var size := if window.Some? then window.value else DEFAULT_WINDOW;
    if size < 1 then (if n < 1 then n else 1) else if size < n then size else n
  }

  type Texts = map<string, Entry>

  type Pairs = map<(string, string), Entry>

  /** The first memory of every text among the first `n`. */
  ghost function TextsOf(ranked: seq<Entry>, n: nat): Texts
    requires n <= |ranked|
  {
    if n == 0 then map[]
    else
      var rest, last := TextsOf(ranked, n - 1), ranked[n - 1];
      if last.text == "" || last.text in rest then rest else rest[last.text := last]
  }

  /** The first memory of every text and source among the first `n`. */
  ghost function PairsOf(ranked: seq<Entry>, n: nat): Pairs
    requires n <= |ranked|
  {
    if n == 0 then map[]
    else
      var rest, last := PairsOf(ranked, n - 1), ranked[n - 1];
      if last.text == "" || (last.source, last.text) in rest then rest else rest[(last.source, last.text) := last]
  }

  ghost predicate CopiedBefore(ranked: seq<Entry>, n: nat, i: nat, sameSource: bool)
    requires n <= i < |ranked|
  {
    FirstCopy(ranked, i, sameSource) < n
  }

  lemma {:induction false} TextKnown(ranked: seq<Entry>, n: nat, i: nat)
    requires n <= i < |ranked| && ranked[i].text != ""
    ensures ranked[i].text in TextsOf(ranked, n) <==> CopiedBefore(ranked, n, i, false)
    ensures CopiedBefore(ranked, n, i, false) ==>
              TextsOf(ranked, n)[ranked[i].text] == ranked[FirstCopy(ranked, i, false)]
  {
    if n > 0 {
      TextKnown(ranked, n - 1, i);
      assert ranked[n - 1].text == ranked[i].text <==> SameCopy(ranked[n - 1], ranked[i], false);
    }
  }

  lemma {:induction false} PairKnown(ranked: seq<Entry>, n: nat, i: nat)
    requires n <= i < |ranked| && ranked[i].text != ""
    ensures var key := (ranked[i].source, ranked[i].text);
            && (key in PairsOf(ranked, n) <==> CopiedBefore(ranked, n, i, true))
            && (CopiedBefore(ranked, n, i, true) ==> PairsOf(ranked, n)[key] == ranked[FirstCopy(ranked, i, true)])
  {
    if n > 0 {
      PairKnown(ranked, n - 1, i);
      assert (ranked[n - 1].source, ranked[n - 1].text) == (ranked[i].source, ranked[i].text)
         <==> SameCopy(ranked[n - 1], ranked[i], true);
    }
  }

  /** A look into the map tells whether a position repeats an earlier one, and which is the first. */
  lemma Lookup(ranked: seq<Entry>, i: nat, sameSource: bool)
    requires i < |ranked| && ranked[i].text != ""
    ensures CopiedBefore(ranked, i, i, sameSource) <==> Repeats(ranked, i, sameSource)
  {
    if CopiedBefore(ranked, i, i, sameSource) {
      assert SameCopy(ranked[FirstCopy(ranked, i, sameSource)], ranked[i], sameSource);
    }
  }

  /** A copy from the same source is a copy. */
  lemma SourceImpliesText(ranked: seq<Entry>, i: nat)
    requires i < |ranked|
    ensures Repeats(ranked, i, true) ==> Repeats(ranked, i, false)
    ensures CopiedBefore(ranked, i, i, true) ==> CopiedBefore(ranked, i, i, false)
  {
    var j := FirstCopy(ranked, i, true);
    assert SameCopy(ranked[j], ranked[i], false);
    if Repeats(ranked, i, true) {
      var k :| 0 <= k < i && SameCopy(ranked[k], ranked[i], true);
      assert SameCopy(ranked[k], ranked[i], false);
    }
  }

  /** Keeps the first of every text, or of every text and source; what lies past the window stays as it is. */
  method DedupeResults(ranked: seq<Entry>, exact: bool, sameSource: bool, window: Option<int>)
    returns (kept: seq<Entry>, removed: seq<Removal>)
    ensures !exact && !sameSource ==> kept == ranked && removed == []
    ensures exact || sameSource ==>
              var n := Looked(window, |ranked|);
              kept == Survivors(ranked, n, sameSource) + ranked[n..] && removed == Removals(ranked, n, sameSource)
  {
    if !exact && !sameSource { return ranked, []; }
    var n := Looked(window, |ranked|);
    var seenText: Texts, seenPair: Pairs := map[], map[];
    kept, removed := [], [];
    for i := 0 to n
      invariant kept == Survivors(ranked, i, sameSource) && removed == Removals(ranked, i, sameSource)
      invariant seenText == TextsOf(ranked, i) && seenPair == if sameSource then PairsOf(ranked, i) else map[]
    {
      var memory := ranked[i];
      if memory.text == "" {
        kept := kept + [memory];
        continue;
      }
      TextKnown(ranked, i, i);
      PairKnown(ranked, i, i);
      Lookup(ranked, i, sameSource);
      SourceImpliesText(ranked, i);
      var pair := (memory.source, memory.text);
      if sameSource && pair in seenPair {
        removed := removed + [Removal(memory.id, seenPair[pair].id, SameSource)];
        continue;
      }
      if memory.text in seenText && !sameSource {
        removed := removed + [Removal(memory.id, seenText[memory.text].id, Exact)];
        continue;
      }
      if memory.text !in seenText { seenText := seenText[memory.text := memory]; }
      if sameSource && pair !in seenPair { seenPair := seenPair[pair := memory]; }
      kept := kept + [memory];
    }
    kept := kept + ranked[n..];
  }

  // ----- what suppression guarantees -----

  lemma {:induction false} SurvivorsAre(ranked: seq<Entry>, n: nat, sameSource: bool, i: nat)
    requires i < n <= |ranked| && !Repeats(ranked, i, sameSource)
    ensures ranked[i] in Survivors(ranked, n, sameSource)
  {
    var all := Survivors(ranked, n, sameSource);
    if i < n - 1 {
      SurvivorsAre(ranked, n - 1, sameSource, i);
      assert Survivors(ranked, n - 1, sameSource) <= all;
    } else {
      assert all[|all| - 1] == ranked[i];
    }
  }

  /** The survivor of a text is its best-ranked copy; and what survives and what goes add up to what was looked at. */
  lemma {:induction false} BestCopySurvives(ranked: seq<Entry>, n: nat, sameSource: bool, i: nat)
    requires i < n <= |ranked| && ranked[i].text != ""
    ensures ranked[FirstCopy(ranked, i, sameSource)] in Survivors(ranked, n, sameSource)
    ensures Repeats(ranked, i, sameSource) <==> FirstCopy(ranked, i, sameSource) < i
  {
    Lookup(ranked, i, sameSource);
    var j := FirstCopy(ranked, i, sameSource);
    forall k | 0 <= k < j ensures !SameCopy(ranked[k], ranked[j], sameSource) {
      assert !SameCopy(ranked[k], ranked[i], sameSource);
    }
    SurvivorsAre(ranked, n, sameSource, j);
  }

  lemma {:induction false} NothingIsLost(ranked: seq<Entry>, n: nat, sameSource: bool)
    requires n <= |ranked|
    ensures |Survivors(ranked, n, sameSource)| + |Removals(ranked, n, sameSource)| == n
  {
    if n > 0 { NothingIsLost(ranked, n - 1, sameSource); }
  }

  /** No two survivors are copies of each other. */
  ghost predicate NoCopies(memories: seq<Entry>, sameSource: bool) {
    forall i :: 0 <= i < |memories| ==> !Repeats(memories, i, sameSource)
  }

  lemma {:induction false} SurvivorFrom(ranked: seq<Entry>, n: nat, sameSource: bool, x: Entry) returns (i: nat)
    requires n <= |ranked| && x in Survivors(ranked, n, sameSource)
    ensures i < n && ranked[i] == x
  {
    if !Repeats(ranked, n - 1, sameSource) && ranked[n - 1] == x {
      i := n - 1;
    } else {
      i := SurvivorFrom(ranked, n - 1, sameSource, x);
    }
  }

  lemma {:induction false} SurvivorsAreDistinct(ranked: seq<Entry>, n: nat, sameSource: bool)
    requires n <= |ranked|
    ensures NoCopies(Survivors(ranked, n, sameSource), sameSource)
  {
    if n > 0 {
      var rest, all, last := Survivors(ranked, n - 1, sameSource), Survivors(ranked, n, sameSource), ranked[n - 1];
      SurvivorsAreDistinct(ranked, n - 1, sameSource);
      forall i | 0 <= i < |rest| ensures !Repeats(all, i, sameSource) {
        assert !Repeats(rest, i, sameSource);
        forall j | 0 <= j < i
          ensures SameCopy(all[j], all[i], sameSource) <==> SameCopy(rest[j], rest[i], sameSource)
        {}
      }
      if !Repeats(ranked, n - 1, sameSource) && last.text != "" {
        forall j | 0 <= j < |rest| ensures !SameCopy(rest[j], last, sameSource) {
          var k := SurvivorFrom(ranked, n - 1, sameSource, rest[j]);
        }
      }
    }
  }

  lemma {:induction false} DistinctSurvive(memories: seq<Entry>, n: nat, sameSource: bool)
    requires n <= |memories| && NoCopies(memories, sameSource)
    ensures Survivors(memories, n, sameSource) == memories[..n] && Removals(memories, n, sameSource) == []
  {
    if n > 0 {
      DistinctSurvive(memories, n - 1, sameSource);
      assert !Repeats(memories, n - 1, sameSource);
    }
  }

  /** Suppressing copies twice is suppressing them once. */
  lemma SuppressionIsIdempotent(ranked: seq<Entry>, n: nat, sameSource: bool)
    requires n <= |ranked|
    ensures var kept := Survivors(ranked, n, sameSource);
            Survivors(kept, |kept|, sameSource) == kept && Removals(kept, |kept|, sameSource) == []
  {
    var kept := Survivors(ranked, n, sameSource);
    SurvivorsAreDistinct(ranked, n, sameSource);
    DistinctSurvive(kept, |kept|, sameSource);
    assert kept[..|kept|] == kept;
  }

  /**
   * Asking for `sameSource` removes nothing besides: it removes less, and exactly as much when every copy
   * has an earlier copy from its own source.
   */
  lemma {:induction false} SameSourceRemovesLess(ranked: seq<Entry>, n: nat)
    requires n <= |ranked|
    ensures |Removals(ranked, n, true)| <= |Removals(ranked, n, false)|
    ensures |Removals(ranked, n, true)| == |Removals(ranked, n, false)| <==>
              forall i :: 0 <= i < n && Repeats(ranked, i, false) ==> Repeats(ranked, i, true)
  {
    if n > 0 {
      SameSourceRemovesLess(ranked, n - 1);
      SourceImpliesText(ranked, n - 1);
    }
  }

  /** Two memories with one text from two sources: the stricter looking request keeps both. */
  lemma SameSourceKeepsMore() returns (ranked: seq<Entry>)
    ensures |ranked| == 2 && Removals(ranked, 2, true) == []
    ensures Removals(ranked, 2, false) == [Removal(ranked[1].id, ranked[0].id, Exact)]
  {
    var a := Entry(0, 0, 1.0, 0.0, 0.0, false, None, "rate limit is 60/min", "conversation", false);
    var b := a.(id := 1, source := "agent");
    ranked := [a, b];
    assert SameCopy(ranked[0], ranked[1], false);
    assert !Repeats(ranked, 0, true) && !Repeats(ranked, 0, false) && Repeats(ranked, 1, false)
           && !Repeats(ranked, 1, true);
    assert FirstCopy(ranked, 1, false) == 0;
    assert Removals(ranked, 1, true) == [] && Removals(ranked, 1, false) == [];
  }

  // ----- a diverse selection -----

  /**
   * The similarities that the selection looks at: of the query to a memory, and of two memories, both by
   * id; `present` says that there is a query vector.
   */
  datatype Cosines = Cosines(present: bool, query: nat -> real, pair: (nat, nat) -> real, lambda: real)

  /** The greatest similarity of the query to a selected memory, or zero. */
  function MaxRelevance(selected: seq<Entry>, c: Cosines): real {
    if selected == [] then 0.0
    else
      var rest, last := MaxRelevance(selected[..|selected| - 1], c), selected[|selected| - 1];
      if last.embedded && c.query(last.id) > rest then c.query(last.id) else rest
  }

  function SimilaritySum(m: Entry, selected: seq<Entry>, c: Cosines): real {
    if selected == [] then 0.0
    else
      var rest, last := SimilaritySum(m, selected[..|selected| - 1], c), selected[|selected| - 1];
      if last.embedded then rest + c.pair(m.id, last.id) else rest
  }

  function AverageSimilarity(m: Entry, selected: seq<Entry>, c: Cosines): real {
    if selected == [] then 0.0 else SimilaritySum(m, selected, c) / |selected| as real
  }

  function Marginal(m: Entry, selected: seq<Entry>, c: Cosines): real {
    if !m.embedded then 0.0 else MaxRelevance(selected, c) - c.lambda * AverageSimilarity(m, selected, c)
  }

  /** The first of those with the greatest marginal value. */
  ghost predicate IsBest(queue: seq<Entry>, n: nat, i: nat, selected: seq<Entry>, c: Cosines)
    requires n <= |queue|
  {
    && i < n
    && (forall k :: 0 <= k < n ==> Marginal(queue[k], selected, c) <= Marginal(queue[i], selected, c))
    && forall k :: 0 <= k < i ==> Marginal(queue[k], selected, c) < Marginal(queue[i], selected, c)
  }

  lemma BestIsUnique(queue: seq<Entry>, i: nat, j: nat, selected: seq<Entry>, c: Cosines)
    requires IsBest(queue, |queue|, i, selected, c) && IsBest(queue, |queue|, j, selected, c)
    ensures i == j
  {
    assert Marginal(queue[i], selected, c) <= Marginal(queue[j], selected, c) <= Marginal(queue[i], selected, c);
  }

  ghost function BestOf(queue: seq<Entry>, n: nat, selected: seq<Entry>, c: Cosines): (i: nat)
    requires 1 <= n <= |queue|
    ensures IsBest(queue, n, i, selected, c)
  {
    if n == 1 then 0
    else
      var i := BestOf(queue, n - 1, selected, c);
      if Marginal(queue[n - 1], selected, c) > Marginal(queue[i], selected, c) then n - 1 else i
  }

  /** The next `count` memories, each the best of those left when it is selected. */
  ghost function Selection(queue: seq<Entry>, selected: seq<Entry>, count: nat, c: Cosines): (picks: seq<Entry>)
    requires count <= |queue|
    ensures |picks| == count
    decreases count
  {
    if count == 0 then []
    else
      var i := BestOf(queue, |queue|, selected, c);
      [queue[i]] + Selection(Without(queue, i), selected + [queue[i]], count - 1, c)
  }

  method MarginalValue(m: Entry, selected: seq<Entry>, c: Cosines) returns (value: real)
    ensures value == Marginal(m, selected, c)
  {
    if !m.embedded { return 0.0; }
    var maxRel, avgSelf := 0.0, 0.0;
    for k := 0 to |selected|
      invariant maxRel == MaxRelevance(selected[..k], c) && avgSelf == SimilaritySum(m, selected[..k], c)
    {
      var s := selected[k];
      assert selected[..k + 1][..k] == selected[..k];
      if s.embedded {
        var rel := c.query(s.id);
        maxRel := if rel > maxRel then rel else maxRel;
        avgSelf := avgSelf + c.pair(m.id, s.id);
      }
    }
    assert selected[..|selected|] == selected;
    if |selected| > 0 { avgSelf := avgSelf / |selected| as real; }
    value := maxRel - c.lambda * avgSelf;
  }

  method BestIndex(queue: seq<Entry>, selected: seq<Entry>, c: Cosines) returns (bestIdx: nat)
    requires queue != []
    ensures IsBest(queue, |queue|, bestIdx, selected, c)
  {
    bestIdx := 0;
    var bestVal: Option<real> := None;
    for i := 0 to |queue|
      invariant i == 0 ==> bestVal.None? && bestIdx == 0
      invariant i > 0 ==>
                  IsBest(queue, i, bestIdx, selected, c) && bestVal == Some(Marginal(queue[bestIdx], selected, c))
    {
      var val := MarginalValue(queue[i], selected, c);
      if bestVal.None? || val > bestVal.value {
        bestVal, bestIdx := Some(val), i;
      }
    }
  }

  lemma SelectNext(queue: seq<Entry>, i: nat, selected: seq<Entry>, count: nat, c: Cosines)
    requires 1 <= count <= |queue| && IsBest(queue, |queue|, i, selected, c)
    ensures selected + Selection(queue, selected, count, c)
         == (selected + [queue[i]]) + Selection(Without(queue, i), selected + [queue[i]], count - 1, c)
  {
    BestIsUnique(queue, i, BestOf(queue, |queue|, selected, c), selected, c);
  }

  /** One round: the best of the queue joins the selection. */
  method PickBest(queue: seq<Entry>, selected: seq<Entry>, ghost count: nat, c: Cosines)
    returns (rest: seq<Entry>, grown: seq<Entry>)
    requires 1 <= count <= |queue|
    ensures |rest| == |queue| - 1 && |grown| == |selected| + 1
    ensures selected + Selection(queue, selected, count, c) == grown + Selection(rest, grown, count - 1, c)
  {
    var bestIdx := BestIndex(queue, selected, c);
    SelectNext(queue, bestIdx, selected, count, c);
    rest, grown := Without(queue, bestIdx), selected + [queue[bestIdx]];
  }

  ghost function Diverse(candidates: seq<Entry>, limit: nat, c: Cosines): seq<Entry> {
    if |candidates| <= limit then candidates
    else if !c.present then candidates[..limit]
    else Selection(candidates, [], limit, c)
  }

  /** The selection, one best memory after the other; a list that fits is not reordered. */
  method MmrDedup(candidates: seq<Entry>, limit: nat, c: Cosines) returns (selected: seq<Entry>)
    ensures selected == Diverse(candidates, limit, c)
  {
    if |candidates| <= limit || !c.present {
      return candidates[..if limit < |candidates| then limit else |candidates|];
    }
    selected := [];
    var queue := candidates;
    ghost var goal := Selection(candidates, [], limit, c);
    while |selected| < limit && queue != []
      invariant |selected| <= limit && |selected| + |queue| == |candidates|
      invariant goal == selected + Selection(queue, selected, limit - |selected|, c)
    {
      queue, selected := PickBest(queue, selected, limit - |selected|, c);
    }
  }

  // ----- what the selection guarantees -----

  lemma Grown(x: Entry, part: seq<Entry>, left: multiset<Entry>, rest: seq<Entry>)
    requires multiset(rest) == multiset(part) + left
    ensures multiset{x} + multiset(rest) == multiset([x] + part) + left
  {
    assert multiset([x] + part) == multiset{x} + multiset(part);
  }

  lemma NextPick(queue: seq<Entry>, selected: seq<Entry>, count: nat, c: Cosines)
    returns (first: Entry, rest: seq<Entry>)
    requires 1 <= count <= |queue|
    ensures |rest| == |queue| - 1 && multiset(queue) == multiset{first} + multiset(rest)
    ensures Selection(queue, selected, count, c) == [first] + Selection(rest, selected + [first], count - 1, c)
  {
    var i := BestOf(queue, |queue|, selected, c);
    TakeOut(queue, i);
    first, rest := queue[i], Without(queue, i);
  }

  /** What is selected and what is left over are together the candidates: nothing is made up or taken twice. */
  lemma {:induction false} SelectionIsPart(queue: seq<Entry>, selected: seq<Entry>, count: nat, c: Cosines)
    returns (left: multiset<Entry>)
    requires count <= |queue|
    ensures multiset(queue) == multiset(Selection(queue, selected, count, c)) + left
    decreases count
  {
    if count == 0 {
      left := multiset(queue);
    } else {
      var first, rest := NextPick(queue, selected, count, c);
      left := SelectionIsPart(rest, selected + [first], count - 1, c);
      Grown(first, Selection(rest, selected + [first], count - 1, c), left, rest);
    }
  }

  /** The best-ranked candidate always comes first. */
  lemma TopRankedIsKept(candidates: seq<Entry>, limit: nat, c: Cosines)
    requires limit >= 1 && candidates != []
    ensures Diverse(candidates, limit, c)[0] == candidates[0]
  {
    if limit < |candidates| && c.present {
      assert forall m :: Marginal(m, [], c) == 0.0;
      var i := BestOf(candidates, |candidates|, [], c);
      assert Marginal(candidates[0], [], c) == Marginal(candidates[i], [], c);
    }
  }

  ghost predicate SameMemories(c: Cosines, d: Cosines) {
    c.pair == d.pair && c.lambda == d.lambda && c.present == d.present
  }

  ghost predicate AllEmbedded(memories: seq<Entry>) { forall i :: 0 <= i < |memories| ==> memories[i].embedded }

  lemma {:induction false} SumIgnoresQuery(m: Entry, selected: seq<Entry>, c: Cosines, d: Cosines)
    requires SameMemories(c, d)
    ensures SimilaritySum(m, selected, c) == SimilaritySum(m, selected, d)
  {
    if selected != [] { SumIgnoresQuery(m, selected[..|selected| - 1], c, d); }
  }

  lemma BestIgnoresQuery(queue: seq<Entry>, selected: seq<Entry>, c: Cosines, d: Cosines)
    requires queue != [] && AllEmbedded(queue) && SameMemories(c, d)
    ensures BestOf(queue, |queue|, selected, c) == BestOf(queue, |queue|, selected, d)
  {
    var shift := MaxRelevance(selected, c) - MaxRelevance(selected, d);
    forall k | 0 <= k < |queue| ensures Marginal(queue[k], selected, c) == Marginal(queue[k], selected, d) + shift {
      SumIgnoresQuery(queue[k], selected, c, d);
    }
    var i := BestOf(queue, |queue|, selected, c);
    assert IsBest(queue, |queue|, i, selected, d);
    BestIsUnique(queue, i, BestOf(queue, |queue|, selected, d), selected, d);
  }

  /**
   * The relevance term compares the query with what is already selected, not with the candidate. So
   * between candidates that all have embeddings the query decides nothing.
   */
  lemma {:induction false} SelectionIgnoresQuery(
    queue: seq<Entry>, selected: seq<Entry>, count: nat, c: Cosines, d: Cosines)
    requires count <= |queue| && AllEmbedded(queue) && SameMemories(c, d)
    ensures Selection(queue, selected, count, c) == Selection(queue, selected, count, d)
    decreases count
  {
    if count > 0 {
      BestIgnoresQuery(queue, selected, c, d);
      var i := BestOf(queue, |queue|, selected, c);
      SelectionIgnoresQuery(Without(queue, i), selected + [queue[i]], count - 1, c, d);
    }
  }

  // ----- the final list -----

  datatype Options = Options(exact: bool, sameSource: bool, diversity: bool, limit: nat)

  ghost function Deduped(ranked: seq<Entry>, exact: bool, sameSource: bool, window: Option<int>): seq<Entry> {
    if !exact && !sameSource then ranked
    else var n := Looked(window, |ranked|); Survivors(ranked, n, sameSource) + ranked[n..]
  }

  function Larger(a: int, b: int): int { if a >= b then a else b }

  function FirstOf(ranked: seq<Entry>, n: nat): seq<Entry> { if n < |ranked| then ranked[..n] else ranked }

  /** The results of a search without a budget. */
  ghost function FinalList(
    entries: seq<Entry>, available: set<nat>, w: Ranking.Weights, o: Options, c: Cosines): seq<Entry>
    requires w.rrfK > 0.0
  {
    var pool := Larger(o.limit * 10, 100);
    var ranked := Deduped(Results(entries, available, w), o.exact, o.sameSource, Some(pool));
    if o.diversity && c.present && |ranked| > 1 then Diverse(FirstOf(ranked, pool), o.limit, c)
      else FirstOf(ranked, o.limit)
  }

  /** The final list depends on which memories there are, and not on the order in which they come. */
  lemma FinalListIgnoresOrder(
    a: seq<Entry>, b: seq<Entry>, available: set<nat>, w: Ranking.Weights, o: Options, c: Cosines)
    requires w.rrfK > 0.0 && DistinctIds(a) && DistinctIds(b) && multiset(a) == multiset(b)
    ensures FinalList(a, available, w, o, c) == FinalList(b, available, w, o, c)
  {
    ResultsIgnoreOrder(a, b, available, w);
  }
}
