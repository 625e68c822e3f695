/** Cumulative histograms and the quantile estimate, over exact reals. */
module Histogram {
  /** Bucket edges, strictly ascending, the first one positive. */
  ghost predicate Edges(buckets: seq<real>) {
    && (forall i, j :: 0 <= i < j < |buckets| ==> buckets[i] < buckets[j])
    && (|buckets| > 0 ==> buckets[0] > 0.0)
  }

  /** How many observations are at most `edge`. */
  function AtMost(observations: seq<real>, edge: real): nat {
    if observations == [] then 0
    else AtMost(observations[..|observations| - 1], edge) + if observations[|observations| - 1] <= edge then 1 else 0
  }

  lemma {:induction false} AtMostGrows(observations: seq<real>, low: real, high: real)
    requires low <= high
    ensures AtMost(observations, low) <= AtMost(observations, high) <= |observations|
  {
    if observations != [] { AtMostGrows(observations[..|observations| - 1], low, high); }
  }

  /** The counts of the buckets, for the observations made so far. */
  ghost predicate Counts(counts: seq<nat>, buckets: seq<real>, observations: seq<real>) {
    |counts| == |buckets| && forall i :: 0 <= i < |buckets| ==> counts[i] == AtMost(observations, buckets[i])
  }

  /** Bucket counts are cumulative and never exceed the total. */
  lemma CountsAreCumulative(counts: seq<nat>, buckets: seq<real>, observations: seq<real>)
    requires Edges(buckets) && Counts(counts, buckets, observations)
    ensures forall i, j :: 0 <= i <= j < |counts| ==> counts[i] <= counts[j] <= |observations|
  {
    forall i, j | 0 <= i <= j < |counts| ensures counts[i] <= counts[j] <= |observations| {
      AtMostGrows(observations, buckets[i], buckets[j]);
    }
  }

  /** The first bucket whose cumulative count reaches `rank`, or the number of buckets. */
  function FirstReaching(counts: seq<nat>, rank: real): (i: nat)
    ensures i <= |counts| && (i < |counts| ==> counts[i] as real >= rank)
    ensures forall j :: 0 <= j < i ==> (counts[j] as real) < rank
  {
    if counts == [] || counts[0] as real >= rank then 0 else FirstReaching(counts[1..], rank) + 1
  }

  function LowerEdge(buckets: seq<real>, i: nat): real
    requires i <= |buckets|
  {
    if i == 0 then 0.0 else buckets[i - 1]
  }

  function BelowBucket(counts: seq<nat>, i: nat): nat
    requires i <= |counts|
  {
    if i == 0 then 0 else counts[i - 1]
  }

  /** As far between the two edges as `part` is of `whole`. */
  function Between(lower: real, upper: real, part: real, whole: real): real
    requires whole > 0.0
  {
    lower + part / whole * (upper - lower)
  }

  /** Interpolation inside bucket `i`. */
  function Inside(buckets: seq<real>, counts: seq<nat>, i: nat, rank: real): real
    requires i < |buckets| == |counts|
  {
    var lower, upper, below := LowerEdge(buckets, i), buckets[i], BelowBucket(counts, i);
    if counts[i] <= below then upper
    else Between(lower, upper, rank - below as real, (counts[i] - below) as real)
  }

  function Estimate(buckets: seq<real>, counts: seq<nat>, rank: real): real
    requires |buckets| == |counts|
  {
    var i := FirstReaching(counts, rank);
    if i < |buckets| then Inside(buckets, counts, i, rank) else if |buckets| > 0 then buckets[|buckets| - 1] else 0.0
  }

  function RankOf(q: real, count: nat): real { q * count as real }

  function Total(observations: seq<real>): real {
    if observations == [] then 0.0 else Total(observations[..|observations| - 1]) + observations[|observations| - 1]
  }

  lemma Reaches(counts: seq<nat>, rank: real, i: nat)
    requires i <= |counts| && (forall j :: 0 <= j < i ==> (counts[j] as real) < rank)
    requires i < |counts| ==> counts[i] as real >= rank
    ensures FirstReaching(counts, rank) == i
  {
  }

  class Series {
    const buckets: seq<real>
    const counts: array<nat>
    var sum: real
    var count: nat
    /** Every value observed. */
    ghost var observations: seq<real>

    ghost predicate Valid()
      reads this, counts
    {
      && Edges(buckets) && counts.Length == |buckets| && count == |observations|
      && Counts(counts[..], buckets, observations) && sum == Total(observations)
    }

    constructor (buckets: seq<real>)
      requires Edges(buckets)
      ensures Valid() && fresh(counts) && this.buckets == buckets && observations == []
    {
      this.buckets := buckets;
      counts := new nat[|buckets|](i => 0);
      sum, count, observations := 0.0, 0, [];
    }

    method Observe(value: real)
      requires Valid()
      modifies this`sum, this`count, this`observations, counts
      ensures Valid() && observations == old(observations) + [value]
    {
      ghost var before := observations;
      assert (before + [value])[..|before|] == before;
      for i := 0 to |buckets|
        modifies counts
        invariant forall j :: 0 <= j < i ==> counts[j] == AtMost(before + [value], buckets[j])
        invariant forall j :: i <= j < |buckets| ==> counts[j] == AtMost(before, buckets[j])
      {
        if value <= buckets[i] { counts[i] := counts[i] + 1; }
      }
      sum := sum + value;
      count := count + 1;
      observations := before + [value];
    }

    /** The bucket that reaches the rank, and how far into it. */
    method AtRank(rank: real) returns (estimate: real)
      requires Valid()
      ensures estimate == Estimate(buckets, counts[..], rank)
    {
      var i := 0;
      while i < |buckets| && (counts[i] as real) < rank
        invariant i <= |buckets| && forall j :: 0 <= j < i ==> (counts[..][j] as real) < rank
      {
        assert counts[..][i] == counts[i];
        i := i + 1;
      }
      assert i < |buckets| ==> counts[..][i] == counts[i];
      Reaches(counts[..], rank, i);
      if i == |buckets| { return if |buckets| > 0 then buckets[|buckets| - 1] else 0.0; }
      var lower := if i == 0 then 0.0 else buckets[i - 1];
      var below := if i == 0 then 0 else counts[i - 1];
      var inBucket := counts[i] - below;
      if inBucket <= 0 { return buckets[i]; }
      estimate := Between(lower, buckets[i], rank - below as real, inBucket as real);
    }

    method Quantile(q: real) returns (estimate: real)
      requires Valid()
      ensures estimate
                == if q < 0.0 || q > 1.0 || count == 0 then 0.0 else Estimate(buckets, counts[..], RankOf(q, count))
    {
      if q < 0.0 || q > 1.0 || count == 0 { return 0.0; }
      estimate := AtRank(RankOf(q, count));
    }
  }

  // ----- what is recorded -----

  function IndicesAtMost(observations: seq<real>, edge: real): set<nat> {
    set k: nat | k < |observations| && observations[k] <= edge
  }

  /** A bucket's count is the number of observations that its edge covers. */
  lemma {:induction false} AtMostCounts(observations: seq<real>, edge: real)
    ensures AtMost(observations, edge) == |IndicesAtMost(observations, edge)|
  {
    if observations == [] {
      assert IndicesAtMost(observations, edge) == {};
    } else {
      var n := |observations| - 1;
      AtMostCounts(observations[..n], edge);
      if observations[n] <= edge {
        assert IndicesAtMost(observations, edge) == IndicesAtMost(observations[..n], edge) + {n};
      } else {
        assert IndicesAtMost(observations, edge) == IndicesAtMost(observations[..n], edge);
      }
    }
  }

  lemma OneMore(x: real, n: nat)
    ensures x * (n + 1) as real == x * n as real + x
  {
  }

  /** The sum lies between so many times the least and the greatest observation. */
  lemma {:induction false} TotalIsBetween(observations: seq<real>, low: real, high: real)
    requires forall k :: 0 <= k < |observations| ==> low <= observations[k] <= high
    ensures low * |observations| as real <= Total(observations) <= high * |observations| as real
  {
    if observations != [] {
      var n := |observations| - 1;
      TotalIsBetween(observations[..n], low, high);
      OneMore(low, n);
      OneMore(high, n);
    }
  }

  // ----- the estimate -----

  lemma PartOfWhole(part: real, whole: real)
    requires 0.0 < part <= whole
    ensures 0.0 < part / whole <= 1.0
  {
  }

  lemma ScaledDown(f: real, width: real)
    requires 0.0 < f <= 1.0 && width > 0.0
    ensures 0.0 < f * width <= width
  {
    assert (1.0 - f) * width >= 0.0;
  }

  lemma InterpolationStays(lower: real, upper: real, part: real, whole: real)
    requires lower < upper && 0.0 < part <= whole
    ensures lower < Between(lower, upper, part, whole) <= upper
  {
    PartOfWhole(part, whole);
    ScaledDown(part / whole, upper - lower);
  }

  lemma InterpolationGrows(lower: real, upper: real, part: real, more: real, whole: real)
    requires lower < upper && part <= more && whole > 0.0
    ensures Between(lower, upper, part, whole) <= Between(lower, upper, more, whole)
  {
    var f, g, width := part / whole, more / whole, upper - lower;
    assert f <= g by { assert g - f == (more - part) / whole; }
    assert (g - f) * width >= 0.0;
  }

  /** Interpolation stays inside the bucket that the rank reaches. */
  lemma InsideIsInside(buckets: seq<real>, counts: seq<nat>, rank: real)
    requires Edges(buckets) && |buckets| == |counts| && rank > 0.0
    requires FirstReaching(counts, rank) < |buckets|
    ensures var i := FirstReaching(counts, rank); LowerEdge(buckets, i) < Estimate(buckets, counts, rank) <= buckets[i]
  {
    var i := FirstReaching(counts, rank);
    var below := BelowBucket(counts, i);
    assert (below as real) < rank <= counts[i] as real;
    InterpolationStays(LowerEdge(buckets, i), buckets[i], rank - below as real, (counts[i] - below) as real);
  }

  lemma ReachesLater(counts: seq<nat>, low: real, high: real)
    requires low <= high
    ensures FirstReaching(counts, low) <= FirstReaching(counts, high)
  {
  }

  lemma InsideGrows(buckets: seq<real>, counts: seq<nat>, i: nat, low: real, high: real)
    requires Edges(buckets) && |buckets| == |counts| && i < |buckets| && low <= high
    ensures Inside(buckets, counts, i, low) <= Inside(buckets, counts, i, high)
  {
    var below := BelowBucket(counts, i);
    if counts[i] > below {
      InterpolationGrows(LowerEdge(buckets, i), buckets[i], low - below as real, high - below as real,
        (counts[i] - below) as real);
    }
  }

  /** A higher quantile is never estimated lower. */
  lemma EstimateIsMonotone(buckets: seq<real>, counts: seq<nat>, low: real, high: real)
    requires Edges(buckets) && |buckets| == |counts| && 0.0 <= low <= high
    ensures Estimate(buckets, counts, low) <= Estimate(buckets, counts, high)
  {
    var i, j := FirstReaching(counts, low), FirstReaching(counts, high);
    ReachesLater(counts, low, high);
    if i < |buckets| {
      if i == j {
        InsideGrows(buckets, counts, i, low, high);
      } else {
        if low > 0.0 { InsideIsInside(buckets, counts, low); }
        if j < |buckets| {
          InsideIsInside(buckets, counts, high);
          assert buckets[i] <= buckets[j - 1];
        } else {
          assert buckets[i] <= buckets[|buckets| - 1];
        }
      }
    }
  }

  lemma Reorder(f: real, width: real, whole: real, part: real)
    requires f * whole == part
    ensures f * width * whole == part * width
  {
    assert f * width * whole == f * whole * width;
  }

  lemma Proportion(lower: real, upper: real, part: real, whole: real)
    requires whole > 0.0
    ensures (Between(lower, upper, part, whole) - lower) * whole == part * (upper - lower)
  {
    Reorder(part / whole, upper - lower, whole, part);
  }

  lemma InsideDivides(buckets: seq<real>, counts: seq<nat>, i: nat, rank: real, lower: real, below: nat)
    requires i < |buckets| == |counts| && lower == LowerEdge(buckets, i) && below == BelowBucket(counts, i) < counts[i]
    ensures (Inside(buckets, counts, i, rank) - lower) * (counts[i] - below) as real
         == (rank - below as real) * (buckets[i] - lower)
  {
    Proportion(lower, buckets[i], rank - below as real, (counts[i] - below) as real);
  }

  /**
   * A rank that falls between two cumulative counts divides their bucket as it divides the observations in
   * it; zero is the lower edge of the first bucket, and no observation the count below it.
   */
  lemma EstimateDividesBucket(buckets: seq<real>, counts: seq<nat>, i: nat, rank: real)
    requires i < |buckets| == |counts| && forall k, l :: 0 <= k <= l < |counts| ==> counts[k] <= counts[l]
    requires var below := if i == 0 then 0 else counts[i - 1]; below as real < rank <= counts[i] as real
    ensures var lower, below := if i == 0 then 0.0 else buckets[i - 1], if i == 0 then 0 else counts[i - 1];
            (Estimate(buckets, counts, rank) - lower) * (counts[i] - below) as real
            == (rank - below as real) * (buckets[i] - lower)
  {
    Reaches(counts, rank, i);
    var lower, below := if i == 0 then 0.0 else buckets[i - 1], if i == 0 then 0 else counts[i - 1];
    InsideDivides(buckets, counts, i, rank, lower, below);
  }

  /** The other ranks: none reached is the last edge, and rank zero the lowest value or an empty first bucket's edge. */
  lemma EstimateAtTheEnds(buckets: seq<real>, counts: seq<nat>, rank: real)
    requires |buckets| == |counts| && forall k, l :: 0 <= k <= l < |counts| ==> counts[k] <= counts[l]
    ensures buckets == [] ==> Estimate(buckets, counts, rank) == 0.0
    ensures buckets != [] && rank > counts[|counts| - 1] as real ==>
              Estimate(buckets, counts, rank) == buckets[|buckets| - 1]
    ensures buckets != [] && rank == 0.0 ==>
              Estimate(buckets, counts, rank) == if counts[0] == 0 then buckets[0] else 0.0
  {
    if buckets != [] && rank > counts[|counts| - 1] as real { Reaches(counts, rank, |counts|); }
  }

  /** How many observations are less than `x`. */
  function Below(observations: seq<real>, x: real): nat {
    if observations == [] then 0
    else Below(observations[..|observations| - 1], x) + if observations[|observations| - 1] < x then 1 else 0
  }

  /** `x` is the `k`-th smallest observation, counting from 1. */
  ghost predicate IsKthSmallest(observations: seq<real>, k: nat, x: real) {
    x in observations && Below(observations, x) < k <= AtMost(observations, x)
  }

  lemma {:induction false} BelowBound(observations: seq<real>, edge: real, x: real)
    requires edge < x
    ensures AtMost(observations, edge) <= Below(observations, x)
  {
    if observations != [] { BelowBound(observations[..|observations| - 1], edge, x); }
  }

  /** The least `k` with `rank <= k`. */
  ghost predicate IsCeiling(k: nat, rank: real) { k as real >= rank > k as real - 1.0 }

  /** A bucket reaches the rank exactly when its edge is at or above the true quantile. */
  lemma ReachesTrueQuantile(observations: seq<real>, edge: real, rank: real, k: nat, x: real)
    requires IsCeiling(k, rank) && IsKthSmallest(observations, k, x)
    ensures AtMost(observations, edge) as real >= rank <==> edge >= x
  {
    if edge >= x { AtMostGrows(observations, x, edge); } else { BelowBound(observations, edge, x); }
    var n := AtMost(observations, edge);
    assert n as real >= rank <==> n >= k;
  }

  /** Bucket `i` holds what is above the previous edge and at most its own. */
  ghost predicate InBucket(buckets: seq<real>, i: nat, x: real)
    requires i < |buckets|
  {
    0.0 <= x <= buckets[i] && (i > 0 ==> buckets[i - 1] < x)
  }

  /**
   * For `q > 0`, when the true quantile (the ceil(q * count)-th smallest observation) is at or below the
   * last edge, the estimate lies in the very bucket that holds it.
   */
  lemma EstimateIsInTheRightBucket(
    buckets: seq<real>, counts: seq<nat>, observations: seq<real>, q: real, k: nat, x: real)
    requires Edges(buckets) && Counts(counts, buckets, observations) && |buckets| > 0 && 0.0 < q <= 1.0
    requires observations != []
    requires IsCeiling(k, q * |observations| as real) && IsKthSmallest(observations, k, x)
    requires 0.0 <= x <= buckets[|buckets| - 1]
    ensures var e := Estimate(buckets, counts, RankOf(q, |observations|));
            exists i :: 0 <= i < |buckets| && InBucket(buckets, i, x) && InBucket(buckets, i, e)
  {
    var rank := RankOf(q, |observations|);
    assert rank > 0.0;
    forall i | 0 <= i < |buckets| ensures counts[i] as real >= rank <==> buckets[i] >= x {
      ReachesTrueQuantile(observations, buckets[i], rank, k, x);
    }
    var i := FirstReaching(counts, rank);
    assert i < |buckets| by { assert counts[|buckets| - 1] as real >= rank; }
    InsideIsInside(buckets, counts, rank);
    assert InBucket(buckets, i, x) && InBucket(buckets, i, Estimate(buckets, counts, rank));
  }
}
