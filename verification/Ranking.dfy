/** Reciprocal rank fusion with averaged ties, and the ordering of search results. */
module Ranking {
  datatype Scored = Scored(id: nat, score: real)

  /** The part of the fusion weights that ranking uses. */
  datatype Weights = Weights(keyword: real, semantic: real, rrfK: real, fusionScale: real)

  function CountAbove(list: seq<Scored>, score: real): nat {
    if list == [] then 0
    else CountAbove(list[..|list| - 1], score) + if list[|list| - 1].score > score then 1 else 0
  }

  function CountTied(list: seq<Scored>, score: real): nat {
    if list == [] then 0
    else CountTied(list[..|list| - 1], score) + if list[|list| - 1].score == score then 1 else 0
  }

  /** The average of the 1-based positions that a score's ties occupy in a ranked list. */
  function AverageRank(list: seq<Scored>, score: real): real {
    CountAbove(list, score) as real + (CountTied(list, score) as real + 1.0) / 2.0
  }

  // ----- ranks are shared out fairly -----

  ghost function RankSum(list: seq<Scored>, over: seq<Scored>): real {
    if over == [] then 0.0 else RankSum(list, over[..|over| - 1]) + AverageRank(list, over[|over| - 1].score)
  }

  ghost function CountLess(list: seq<Scored>, score: real): nat {
    if list == [] then 0
    else CountLess(list[..|list| - 1], score) + if list[|list| - 1].score < score then 1 else 0
  }

  lemma {:induction false} CountsCover(list: seq<Scored>, score: real)
    ensures CountAbove(list, score) + CountTied(list, score) + CountLess(list, score) == |list|
  {
    if list != [] { CountsCover(list[..|list| - 1], score); }
  }

  /** One more item pushes everything below it down by one, and shares half a place with its ties. */
  lemma {:induction false} OneMore(list: seq<Scored>, over: seq<Scored>, x: Scored)
    ensures RankSum(list + [x], over)
         == RankSum(list, over) + CountLess(over, x.score) as real + CountTied(over, x.score) as real / 2.0
  {
    if over != [] {
      OneMore(list, over[..|over| - 1], x);
      assert (list + [x])[..|list|] == list;
    }
  }

  /** Whatever the ties, the ranks of n items add up to n(n + 1)/2. */
  lemma {:induction false} RanksAddUp(list: seq<Scored>)
    ensures RankSum(list, list) == (|list| * (|list| + 1)) as real / 2.0
  {
    if list != [] {
      var n := |list| - 1;
      var rest, x := list[..n], list[n];
      assert list == rest + [x];
      RanksAddUp(rest);
      OneMore(rest, rest, x);
      CountsCover(rest, x.score);
      assert (rest + [x])[..n] == rest;
      assert (n + 1) * (n + 2) == n * (n + 1) + 2 * (n + 1);
    }
  }

  // ----- the fusion loops -----

  ghost predicate Ranked(list: seq<Scored>) {
    && (forall i, j :: 0 <= i < j < |list| ==> list[i].score >= list[j].score)
    && forall i, j :: 0 <= i < j < |list| ==> list[i].id != list[j].id
  }

  /** Where a group of ties begins and ends gives its average rank. */
  lemma {:induction false} GroupRank(list: seq<Scored>, i: nat, j: nat, score: real)
    requires i <= j <= |list|
    requires forall k :: 0 <= k < i ==> list[k].score > score
    requires forall k :: i <= k < j ==> list[k].score == score
    requires forall k :: j <= k < |list| ==> list[k].score < score
    ensures CountAbove(list, score) == i && CountTied(list, score) == j - i
  {
    if list != [] {
      var n := |list| - 1;
      GroupRank(list[..n], if i > n then n else i, if j > n then n else j, score);
    }
  }

  /** What one list adds for an item of a given rank. */
  function Contribution(weight: real, rrfK: real, rank: real): real
    requires rrfK + rank > 0.0
  {
    weight / (rrfK + rank)
  }

  lemma RankIsPositive(list: seq<Scored>, score: real)
    ensures AverageRank(list, score) > 0.0
  {
  }

  function Current(fuse: map<nat, real>, id: nat): real { if id in fuse then fuse[id] else 0.0 }

  /** What a list adds for an id: nothing if it is not in it. */
  ghost function Share(list: seq<Scored>, weight: real, rrfK: real, id: nat): real
    requires rrfK > 0.0
  {
    if exists i :: 0 <= i < |list| && list[i].id == id then
      var i :| 0 <= i < |list| && list[i].id == id;
      RankIsPositive(list, list[i].score);
      Contribution(weight, rrfK, AverageRank(list, list[i].score))
    else 0.0
  }

  lemma ShareAt(list: seq<Scored>, weight: real, rrfK: real, i: nat)
    requires rrfK > 0.0 && Ranked(list) && i < |list|
    ensures AverageRank(list, list[i].score) > 0.0
    ensures Share(list, weight, rrfK, list[i].id) == Contribution(weight, rrfK, AverageRank(list, list[i].score))
  {
    RankIsPositive(list, list[i].score);
    var id := list[i].id;
    var k :| 0 <= k < |list| && list[k].id == id
      && Share(list, weight, rrfK, id) == Contribution(weight, rrfK, AverageRank(list, list[k].score));
    assert k == i;
  }

  /** End of the group of ties that starts at `i`. */
  method GroupEnd(list: seq<Scored>, i: nat) returns (j: nat)
    requires Ranked(list) && i < |list|
    ensures i < j <= |list| && forall k :: i <= k < j ==> list[k].score == list[i].score
    ensures forall k :: j <= k < |list| ==> list[k].score < list[i].score
  {
    j := i + 1;
    while j < |list| && list[j].score == list[i].score
      invariant i < j <= |list| && forall k :: i <= k < j ==> list[k].score == list[i].score
    {
      j := j + 1;
    }
  }

  /** The share of every item of a group of ties. */
  method GroupShare(list: seq<Scored>, weight: real, rrfK: real, i: nat, j: nat) returns (share: real)
    requires Ranked(list) && rrfK > 0.0 && i < j <= |list|
    requires forall k :: 0 <= k < i ==> list[k].score > list[i].score
    requires forall k :: i <= k < j ==> list[k].score == list[i].score
    requires forall k :: j <= k < |list| ==> list[k].score < list[i].score
    ensures forall k :: i <= k < j ==> Share(list, weight, rrfK, list[k].id) == share
  {
    GroupRank(list, i, j, list[i].score);
    var avgRank := (i + 1 + j) as real / 2.0;
    RankIsPositive(list, list[i].score);
    assert avgRank == AverageRank(list, list[i].score);
    share := Contribution(weight, rrfK, avgRank);
    forall k | i <= k < j ensures Share(list, weight, rrfK, list[k].id) == share { ShareAt(list, weight, rrfK, k); }
  }

  /** Items `lo` to `hi` of the list have their shares, on top of what `base` gives, and no other id changed. */
  ghost predicate Given(
    base: map<nat, real>, out: map<nat, real>, list: seq<Scored>, weight: real, rrfK: real, lo: nat, hi: nat)
    requires rrfK > 0.0 && lo <= hi <= |list|
  {
    && (forall k ::
         lo <= k < hi ==> Current(out, list[k].id) == Current(base, list[k].id) + Share(list, weight, rrfK, list[k].id))
    && forall id :: (forall k :: lo <= k < hi ==> list[k].id != id) ==> Current(out, id) == Current(base, id)
  }

  lemma GiveMore(
    base: map<nat, real>, mid: map<nat, real>, out: map<nat, real>, list: seq<Scored>, weight: real, rrfK: real, i: nat,
    j: nat)
    requires Ranked(list) && rrfK > 0.0 && i <= j <= |list|
    requires Given(base, mid, list, weight, rrfK, 0, i) && Given(mid, out, list, weight, rrfK, i, j)
    ensures Given(base, out, list, weight, rrfK, 0, j)
  {
    forall k | 0 <= k < j
      ensures Current(out, list[k].id) == Current(base, list[k].id) + Share(list, weight, rrfK, list[k].id)
    {
      if k < i { assert forall m :: i <= m < j ==> list[m].id != list[k].id; }
    }
  }

  lemma GiveOne(
    base: map<nat, real>, out: map<nat, real>, list: seq<Scored>, weight: real, rrfK: real, i: nat, k: nat, share: real)
    requires Ranked(list) && rrfK > 0.0 && i <= k < |list| && Given(base, out, list, weight, rrfK, i, k)
    requires Share(list, weight, rrfK, list[k].id) == share
    ensures Current(out, list[k].id) == Current(base, list[k].id)
    ensures Given(base, out[list[k].id := Current(base, list[k].id) + share], list, weight, rrfK, i, k + 1)
  {
    var id, next := list[k].id, out[list[k].id := Current(base, list[k].id) + share];
    forall m | i <= m < k ensures Current(next, list[m].id) == Current(out, list[m].id) { assert list[m].id != id; }
    forall other | other != id ensures Current(next, other) == Current(out, other) {}
  }

  lemma AllGiven(base: map<nat, real>, out: map<nat, real>, list: seq<Scored>, weight: real, rrfK: real)
    requires rrfK > 0.0 && Given(base, out, list, weight, rrfK, 0, |list|)
    ensures forall id :: Current(out, id) == Current(base, id) + Share(list, weight, rrfK, id)
  {
  }

  method AddGroup(
    fuse: map<nat, real>, list: seq<Scored>, ghost weight: real, ghost rrfK: real, i: nat, j: nat, share: real)
    returns (out: map<nat, real>)
    requires Ranked(list) && rrfK > 0.0 && i <= j <= |list|
    requires forall k :: i <= k < j ==> Share(list, weight, rrfK, list[k].id) == share
    ensures Given(fuse, out, list, weight, rrfK, i, j)
  {
    out := fuse;
    for k := i to j
      invariant Given(fuse, out, list, weight, rrfK, i, k)
    {
      GiveOne(fuse, out, list, weight, rrfK, i, k, share);
      out := out[list[k].id := Current(out, list[k].id) + share];
    }
  }

  /** Adds one ranked list to the fused scores. */
  method AddList(fuse: map<nat, real>, list: seq<Scored>, weight: real, rrfK: real) returns (out: map<nat, real>)
    requires Ranked(list) && rrfK > 0.0
    ensures forall id :: Current(out, id) == Current(fuse, id) + Share(list, weight, rrfK, id)
  {
    out := fuse;
    var i := 0;
    while i < |list|
      invariant i <= |list| && (0 < i < |list| ==> list[i - 1].score > list[i].score)
      invariant Given(fuse, out, list, weight, rrfK, 0, i)
    {
      var j := GroupEnd(list, i);
      var share := GroupShare(list, weight, rrfK, i, j);
      ghost var mid := out;
      out := AddGroup(out, list, weight, rrfK, i, j, share);
      GiveMore(fuse, mid, out, list, weight, rrfK, i, j);
      i := j;
    }
    AllGiven(fuse, out, list, weight, rrfK);
  }

  /** The score that both lists together give an id. */
  ghost function Fused(keywords: seq<Scored>, vectors: seq<Scored>, w: Weights, id: nat): real
    requires w.rrfK > 0.0
  {
    Share(keywords, w.keyword, w.rrfK, id) + Share(vectors, w.semantic, w.rrfK, id)
  }

  method RrfFuse(keywords: seq<Scored>, vectors: seq<Scored>, w: Weights) returns (fuse: map<nat, real>)
    requires Ranked(keywords) && Ranked(vectors) && w.rrfK > 0.0
    ensures forall id :: Current(fuse, id) == Fused(keywords, vectors, w, id)
  {
    fuse := AddList(map[], keywords, w.keyword, w.rrfK);
    fuse := AddList(fuse, vectors, w.semantic, w.rrfK);
  }

  method SetGroup(
    fuse: map<nat, real>, list: seq<Scored>, ghost weight: real, ghost rrfK: real, i: nat, j: nat, share: real)
    returns (out: map<nat, real>)
    requires Ranked(list) && rrfK > 0.0 && i <= j <= |list|
    requires forall k ::
               i <= k < j ==> Share(list, weight, rrfK, list[k].id) == share && Current(fuse, list[k].id) == 0.0
    ensures Given(fuse, out, list, weight, rrfK, i, j)
  {
    out := fuse;
    for k := i to j
      invariant Given(fuse, out, list, weight, rrfK, i, k)
    {
      GiveOne(fuse, out, list, weight, rrfK, i, k, share);
      out := out[list[k].id := share];
    }
  }

  /** The short cut of search for a single signal sets each share instead of adding it. */
  method SingleListRanks(list: seq<Scored>, weight: real, rrfK: real) returns (out: map<nat, real>)
    requires Ranked(list) && rrfK > 0.0
    ensures forall id :: Current(out, id) == Share(list, weight, rrfK, id)
  {
    out := map[];
    var i := 0;
    while i < |list|
      invariant i <= |list| && (0 < i < |list| ==> list[i - 1].score > list[i].score)
      invariant Given(map[], out, list, weight, rrfK, 0, i)
    {
      var j := GroupEnd(list, i);
      var share := GroupShare(list, weight, rrfK, i, j);
      ghost var mid := out;
      out := SetGroup(out, list, weight, rrfK, i, j, share);
      GiveMore(map[], mid, out, list, weight, rrfK, i, j);
      i := j;
    }
    AllGiven(map[], out, list, weight, rrfK);
  }

  /** All three branches of search give the fused score. */
  method FuseScores(keywords: seq<Scored>, vectors: seq<Scored>, w: Weights) returns (fuse: map<nat, real>)
    requires Ranked(keywords) && Ranked(vectors) && w.rrfK > 0.0
    ensures forall id :: Current(fuse, id) == Fused(keywords, vectors, w, id)
  {
    if keywords == [] {
      fuse := SingleListRanks(vectors, w.semantic, w.rrfK);
    } else if vectors == [] {
      fuse := SingleListRanks(keywords, w.keyword, w.rrfK);
    } else {
      fuse := RrfFuse(keywords, vectors, w);
    }
  }
}
