/**
 * The line diff behind the history view: a longest common subsequence over lines, traced into
 * keep/add/remove operations and grouped into hunks with two lines of context.
 */
module Diff {
  const MAX_CELLS := 4_000_000
  const CONTEXT := 2

  datatype Kind = Keep | Add | Remove

  datatype Op = Op(kind: Kind, line: string)

  // ----- operations and the texts they stand for

  /** The lines before the edit. */
  ghost function Old(ops: seq<Op>): (lines: seq<string>)
  {
    if ops == [] then []
    else
      var last := ops[|ops| - 1];
      Old(ops[..|ops| - 1]) + if last.kind.Add? then [] else [last.line]
  }

  /** The lines after the edit. */
  ghost function New(ops: seq<Op>): (lines: seq<string>)
  {
    if ops == [] then []
    else
      var last := ops[|ops| - 1];
      New(ops[..|ops| - 1]) + if last.kind.Remove? then [] else [last.line]
  }

  /** The lines that survive the edit. */
  ghost function Kept(ops: seq<Op>): (lines: seq<string>)
  {
    if ops == [] then []
    else
      var last := ops[|ops| - 1];
      Kept(ops[..|ops| - 1]) + if last.kind.Keep? then [last.line] else []
  }

  ghost function Changed(ops: seq<Op>): nat {
    if ops == [] then 0
    else Changed(ops[..|ops| - 1]) + if ops[|ops| - 1].kind.Keep? then 0 else 1
  }

  predicate EndsWithAdd(ops: seq<Op>) { ops != [] && ops[|ops| - 1].kind.Add? }

  /** Within a stretch of changes what goes is listed before what comes. */
  predicate RemovalsFirst(ops: seq<Op>) {
    ops == [] || (
      var rest := ops[..|ops| - 1];
      RemovalsFirst(rest) && !(EndsWithAdd(rest) && ops[|ops| - 1].kind.Remove?))
  }

  lemma {:induction false} RemovalsFirstMeans(ops: seq<Op>)
    requires RemovalsFirst(ops)
    ensures forall k :: 0 <= k < |ops| - 1 ==> !(ops[k].kind.Add? && ops[k + 1].kind.Remove?)
  {
    if ops != [] {
      var n := |ops| - 1;
      RemovalsFirstMeans(ops[..n]);
      forall k | 0 <= k < n ensures !(ops[k].kind.Add? && ops[k + 1].kind.Remove?) {
        if k + 1 < n { assert ops[..n][k] == ops[k] && ops[..n][k + 1] == ops[k + 1]; }
      }
    }
  }

  lemma Extend(ops: seq<Op>, op: Op)
    ensures Old(ops + [op]) == Old(ops) + if op.kind.Add? then [] else [op.line]
    ensures New(ops + [op]) == New(ops) + if op.kind.Remove? then [] else [op.line]
    ensures Kept(ops + [op]) == Kept(ops) + if op.kind.Keep? then [op.line] else []
    ensures Changed(ops + [op]) == Changed(ops) + if op.kind.Keep? then 0 else 1
    ensures RemovalsFirst(ops + [op]) <==> RemovalsFirst(ops) && !(EndsWithAdd(ops) && op.kind.Remove?)
  {
    assert (ops + [op])[..|ops|] == ops;
  }

  /** Every line is kept on both sides or changed on one. */
  lemma {:induction false} ChangedCounts(ops: seq<Op>)
    ensures |Old(ops)| + |New(ops)| == 2 * |Kept(ops)| + Changed(ops)
  {
    if ops != [] { ChangedCounts(ops[..|ops| - 1]); }
  }

  // ----- common subsequences

  ghost predicate Subsequence(s: seq<string>, a: seq<string>)
    decreases |a|
  {
    s == [] || (a != [] && (Subsequence(s, a[1..]) || (s[0] == a[0] && Subsequence(s[1..], a[1..]))))
  }

  function Max(x: nat, y: nat): nat { if x >= y then x else y }

  /** The table entry for the suffixes `a[i..]` and `b[j..]`. */
  ghost function Lcs(a: seq<string>, b: seq<string>, i: nat, j: nat): nat
    requires i <= |a| && j <= |b|
    decreases |a| - i + |b| - j
  {
    if i == |a| || j == |b| then 0
    else if a[i] == b[j] then Lcs(a, b, i + 1, j + 1) + 1
    else Max(Lcs(a, b, i + 1, j), Lcs(a, b, i, j + 1))
  }

  function Min(x: nat, y: nat): nat { if x <= y then x else y }

  lemma {:induction false} DropFirst(s: seq<string>, a: seq<string>)
    requires s != [] && Subsequence(s, a)
    ensures a != [] && Subsequence(s[1..], a[1..]) && (s[0] != a[0] ==> Subsequence(s, a[1..]))
    decreases |a|
  {
    if Subsequence(s, a[1..]) {
      DropFirst(s, a[1..]);
    }
  }

  /** No common subsequence is longer than the table entry. */
  lemma {:induction false} LcsBounds(a: seq<string>, b: seq<string>, i: nat, j: nat, s: seq<string>)
    requires i <= |a| && j <= |b|
    requires Subsequence(s, a[i..]) && Subsequence(s, b[j..])
    ensures |s| <= Lcs(a, b, i, j)
    decreases |a| - i + |b| - j
  {
    if s != [] {
      DropFirst(s, a[i..]);
      DropFirst(s, b[j..]);
      assert a[i..][1..] == a[i + 1..] && b[j..][1..] == b[j + 1..];
      if a[i] == b[j] {
        LcsBounds(a, b, i + 1, j + 1, s[1..]);
      } else if s[0] != a[i] {
        LcsBounds(a, b, i + 1, j, s);
      } else {
        LcsBounds(a, b, i, j + 1, s);
      }
    }
  }

  lemma {:induction false} LcsAtMost(a: seq<string>, b: seq<string>, i: nat, j: nat)
    requires i <= |a| && j <= |b|
    ensures Lcs(a, b, i, j) <= |a| - i && Lcs(a, b, i, j) <= |b| - j
    decreases |a| - i + |b| - j
  {
    if i < |a| && j < |b| {
      LcsAtMost(a, b, i + 1, j);
      LcsAtMost(a, b, i, j + 1);
      LcsAtMost(a, b, i + 1, j + 1);
    }
  }

  lemma {:induction false} SubsequenceAppend(s: seq<string>, a: seq<string>, line: string)
    requires Subsequence(s, a)
    ensures Subsequence(s, a + [line]) && Subsequence(s + [line], a + [line])
    decreases |a|
  {
    if a == [] {
      assert s + [line] == [line] && a + [line] == [line];
      assert [line][1..] == [];
    } else {
      assert (a + [line])[1..] == a[1..] + [line];
      if s == [] {
        SubsequenceAppend([], a[1..], line);
        assert [] + [line] == [line];
      } else if Subsequence(s, a[1..]) {
        SubsequenceAppend(s, a[1..], line);
      } else {
        SubsequenceAppend(s[1..], a[1..], line);
        assert (s + [line])[1..] == s[1..] + [line];
      }
    }
  }

  /** The kept lines are a common subsequence of both sides. */
  lemma {:induction false} KeptIsCommon(ops: seq<Op>)
    ensures Subsequence(Kept(ops), Old(ops)) && Subsequence(Kept(ops), New(ops))
  {
    if ops != [] {
      var rest, last := ops[..|ops| - 1], ops[|ops| - 1];
      KeptIsCommon(rest);
      SubsequenceAppend(Kept(rest), Old(rest), last.line);
      SubsequenceAppend(Kept(rest), New(rest), last.line);
      assert Kept(rest) + [] == Kept(rest) && Old(rest) + [] == Old(rest) && New(rest) + [] == New(rest);
    }
  }

  /** An edit script from `a` to `b` that keeps as many lines as the table says keeps the most lines possible. */
  lemma ScriptIsOptimal(a: seq<string>, b: seq<string>, ops: seq<Op>, other: seq<Op>)
    requires Old(ops) == a && New(ops) == b && |Kept(ops)| == Lcs(a, b, 0, 0)
    requires Old(other) == a && New(other) == b
    ensures forall s :: Subsequence(s, a) && Subsequence(s, b) ==> |s| <= |Kept(ops)|
    ensures Subsequence(Kept(ops), a) && Subsequence(Kept(ops), b)
    ensures Changed(ops) <= Changed(other)
  {
    assert a[0..] == a && b[0..] == b;
    forall s | Subsequence(s, a) && Subsequence(s, b) ensures |s| <= |Kept(ops)| {
      LcsBounds(a, b, 0, 0, s);
    }
    KeptIsCommon(ops);
    KeptIsCommon(other);
    ChangedCounts(ops);
    ChangedCounts(other);
  }

  // ----- the flat table

  function Cell(width: nat, i: nat, j: nat): nat { i * (width + 1) + j }

  lemma CellInTable(n: nat, m: nat, i: nat, j: nat)
    requires i <= n && j <= m
    ensures Cell(m, i, j) < (n + 1) * (m + 1)
  {
    assert i * (m + 1) <= n * (m + 1);
  }

  lemma CellsDiffer(m: nat, i: nat, j: nat, k: nat, l: nat)
    requires j <= m && l <= m && (i != k || j != l)
    ensures Cell(m, i, j) != Cell(m, k, l)
  {
    if i < k {
      assert (i + 1) * (m + 1) <= k * (m + 1);
    } else if k < i {
      assert (k + 1) * (m + 1) <= i * (m + 1);
    }
  }

  type Uint32 = n: nat | n < 0x1_0000_0000

  ghost predicate Filled(dp: seq<Uint32>, a: seq<string>, b: seq<string>, i: nat, j: nat)
    requires |dp| == (|a| + 1) * (|b| + 1) && i <= |a| && j <= |b|
  {
    CellInTable(|a|, |b|, i, j);
    dp[Cell(|b|, i, j)] == Lcs(a, b, i, j)
  }

  /** The last column, every row from `i + 1` on, and row `i` from column `j` on are done. */
  ghost predicate FilledFrom(dp: seq<Uint32>, a: seq<string>, b: seq<string>, i: nat, j: nat)
    requires |dp| == (|a| + 1) * (|b| + 1)
  {
    forall k, l ::
      0 <= k <= |a| && 0 <= l <= |b| && (k > i || l == |b| || (k == i && l >= j)) ==> Filled(dp, a, b, k, l)
  }

  lemma BordersAreZero(dp: seq<Uint32>, a: seq<string>, b: seq<string>)
    requires |dp| == (|a| + 1) * (|b| + 1) && forall c :: 0 <= c < |dp| ==> dp[c] == 0
    ensures FilledFrom(dp, a, b, |a|, 0)
  {
    forall k, l | 0 <= k <= |a| && 0 <= l <= |b| && (k == |a| || l == |b|) ensures Filled(dp, a, b, k, l) {
      CellInTable(|a|, |b|, k, l);
    }
  }

  method FillCell(a: seq<string>, b: seq<string>, dp: array<Uint32>, i: nat, j: nat)
    requires (|a| + 1) * (|b| + 1) <= MAX_CELLS && dp.Length == (|a| + 1) * (|b| + 1)
    requires i < |a| && j < |b|
    requires Filled(dp[..], a, b, i + 1, j + 1) && Filled(dp[..], a, b, i + 1, j) && Filled(dp[..], a, b, i, j + 1)
    modifies dp
    ensures Filled(dp[..], a, b, i, j)
    ensures forall k, l ::
              0 <= k <= |a| && 0 <= l <= |b| && old(Filled(dp[..], a, b, k, l)) ==> Filled(dp[..], a, b, k, l)
  {
    var m := |b|;
    CellInTable(|a|, m, i, j);
    CellInTable(|a|, m, i + 1, j);
    CellInTable(|a|, m, i, j + 1);
    CellInTable(|a|, m, i + 1, j + 1);
    LcsAtMost(a, b, i, j);
    assert |a| < MAX_CELLS by { assert |a| + 1 <= (|a| + 1) * (m + 1); }
    dp[Cell(m, i, j)] :=
      if a[i] == b[j] then dp[Cell(m, i + 1, j + 1)] + 1 else Max(dp[Cell(m, i + 1, j)], dp[Cell(m, i, j + 1)]);
    forall k, l | 0 <= k <= |a| && 0 <= l <= m && old(Filled(dp[..], a, b, k, l)) ensures Filled(dp[..], a, b, k, l) {
      CellInTable(|a|, m, k, l);
      if k != i || l != j { CellsDiffer(m, i, j, k, l); }
    }
  }

  method FillRow(a: seq<string>, b: seq<string>, dp: array<Uint32>, i: nat)
    requires (|a| + 1) * (|b| + 1) <= MAX_CELLS && dp.Length == (|a| + 1) * (|b| + 1)
    requires i < |a| && FilledFrom(dp[..], a, b, i + 1, 0)
    modifies dp
    ensures FilledFrom(dp[..], a, b, i, 0)
  {
    var j := |b|;
    while j > 0
      invariant 0 <= j <= |b|
      invariant FilledFrom(dp[..], a, b, i, j)
    {
      j := j - 1;
      FillCell(a, b, dp, i, j);
    }
  }

  method FillTable(a: seq<string>, b: seq<string>) returns (dp: array<Uint32>)
    requires (|a| + 1) * (|b| + 1) <= MAX_CELLS
    ensures fresh(dp) && dp.Length == (|a| + 1) * (|b| + 1)
    ensures forall i, j :: 0 <= i <= |a| && 0 <= j <= |b| ==> Filled(dp[..], a, b, i, j)
  {
    var n, m := |a|, |b|;
    dp := new Uint32[(n + 1) * (m + 1)](_ => 0);
    BordersAreZero(dp[..], a, b);
    var i := n;
    while i > 0
      invariant 0 <= i <= n
      invariant FilledFrom(dp[..], a, b, i, 0)
    {
      i := i - 1;
      FillRow(a, b, dp, i);
    }
  }

  // ----- the trace

  /** The table shrinks by at most one from one entry to the next. */
  lemma {:induction false} LcsShrinks(a: seq<string>, b: seq<string>, i: nat, j: nat)
    requires i <= |a| && j <= |b|
    ensures j < |b| ==> Lcs(a, b, i, j + 1) <= Lcs(a, b, i, j) <= Lcs(a, b, i, j + 1) + 1
    ensures i < |a| ==> Lcs(a, b, i + 1, j) <= Lcs(a, b, i, j) <= Lcs(a, b, i + 1, j) + 1
    decreases |a| - i + |b| - j
  {
    if i < |a| && j < |b| {
      LcsShrinks(a, b, i + 1, j);
      LcsShrinks(a, b, i, j + 1);
    }
  }

  /** After an addition of `b[j - 1]` the table leaves no removal of `a[i]` to be preferred. */
  ghost predicate NoRemovalNext(a: seq<string>, b: seq<string>, i: nat, j: nat)
    requires i <= |a| && j <= |b|
  {
    i < |a| ==> j > 0 && Lcs(a, b, i + 1, j - 1) < Lcs(a, b, i, j)
  }

  lemma NoRemoval(a: seq<string>, b: seq<string>, i: nat, j: nat)
    requires i < |a| && j <= |b| && NoRemovalNext(a, b, i, j)
    ensures j < |b| && (a[i] != b[j] ==> Lcs(a, b, i + 1, j) < Lcs(a, b, i, j + 1))
  {
    LcsShrinks(a, b, i + 1, j - 1);
  }

  /** The first list is not exhausted: its rest is removed. */
  method RemoveRest(a: seq<string>, traced: seq<Op>, from: nat) returns (ops: seq<Op>)
    requires from <= |a| && Old(traced) == a[..from]
    requires RemovalsFirst(traced) && (EndsWithAdd(traced) ==> from == |a|)
    ensures Old(ops) == a && New(ops) == New(traced) && Kept(ops) == Kept(traced) && RemovalsFirst(ops)
  {
    ops := traced;
    for i := from to |a|
      invariant Old(ops) == a[..i] && New(ops) == New(traced) && Kept(ops) == Kept(traced)
      invariant RemovalsFirst(ops) && (EndsWithAdd(ops) ==> i == |a|)
    {
      assert a[..i + 1] == a[..i] + [a[i]];
      Extend(ops, Op(Remove, a[i]));
      ops := ops + [Op(Remove, a[i])];
    }
    assert a[..|a|] == a;
  }

  /** The second list is not exhausted: its rest is added. */
  method AddRest(b: seq<string>, traced: seq<Op>, to: nat) returns (ops: seq<Op>)
    requires to <= |b| && New(traced) == b[..to] && RemovalsFirst(traced)
    ensures Old(ops) == Old(traced) && New(ops) == b && Kept(ops) == Kept(traced) && RemovalsFirst(ops)
  {
    ops := traced;
    for j := to to |b|
      invariant Old(ops) == Old(traced) && New(ops) == b[..j] && Kept(ops) == Kept(traced) && RemovalsFirst(ops)
    {
      assert b[..j + 1] == b[..j] + [b[j]];
      Extend(ops, Op(Add, b[j]));
      ops := ops + [Op(Add, b[j])];
    }
    assert b[..|b|] == b;
  }

  /** The script so far turns the first `i` lines into the first `j` lines and can still be optimal. */
  ghost predicate Traced(a: seq<string>, b: seq<string>, ops: seq<Op>, i: nat, j: nat) {
    && i <= |a| && j <= |b|
    && Old(ops) == a[..i] && New(ops) == b[..j]
    && |Kept(ops)| + Lcs(a, b, i, j) == Lcs(a, b, 0, 0)
    && RemovalsFirst(ops) && (EndsWithAdd(ops) ==> NoRemovalNext(a, b, i, j))
  }

  lemma KeepTraced(a: seq<string>, b: seq<string>, ops: seq<Op>, i: nat, j: nat)
    requires Traced(a, b, ops, i, j) && i < |a| && j < |b| && a[i] == b[j]
    ensures Traced(a, b, ops + [Op(Keep, a[i])], i + 1, j + 1)
  {
    Extend(ops, Op(Keep, a[i]));
    assert a[..i + 1] == a[..i] + [a[i]] && b[..j + 1] == b[..j] + [b[j]];
  }

  lemma RemoveTraced(a: seq<string>, b: seq<string>, ops: seq<Op>, i: nat, j: nat)
    requires Traced(a, b, ops, i, j) && i < |a| && j < |b| && a[i] != b[j]
    requires Lcs(a, b, i + 1, j) >= Lcs(a, b, i, j + 1)
    ensures Traced(a, b, ops + [Op(Remove, a[i])], i + 1, j)
  {
    Extend(ops, Op(Remove, a[i]));
    assert a[..i + 1] == a[..i] + [a[i]];
    if EndsWithAdd(ops) { NoRemoval(a, b, i, j); }
  }

  lemma AddTraced(a: seq<string>, b: seq<string>, ops: seq<Op>, i: nat, j: nat)
    requires Traced(a, b, ops, i, j) && i < |a| && j < |b| && a[i] != b[j]
    requires Lcs(a, b, i + 1, j) < Lcs(a, b, i, j + 1)
    ensures Traced(a, b, ops + [Op(Add, b[j])], i, j + 1)
  {
    Extend(ops, Op(Add, b[j]));
    assert b[..j + 1] == b[..j] + [b[j]];
  }

  /** The edit script between two line lists; by `ScriptIsOptimal` no script keeps more lines. */
  method LcsOps(a: seq<string>, b: seq<string>) returns (ops: seq<Op>)
    requires (|a| + 1) * (|b| + 1) <= MAX_CELLS
    ensures Old(ops) == a && New(ops) == b
    ensures |Kept(ops)| == Lcs(a, b, 0, 0)
    ensures RemovalsFirst(ops)
  {
    var n, m := |a|, |b|;
    var dp := FillTable(a, b);
    ghost var table := dp[..];
    ops := [];
    var i, j := 0, 0;
    while i < n && j < m
      invariant i <= n && j <= m && Traced(a, b, ops, i, j)
      invariant dp[..] == table
      decreases n - i + m - j
    {
      CellInTable(n, m, i + 1, j);
      CellInTable(n, m, i, j + 1);
      assert Filled(table, a, b, i + 1, j) && Filled(table, a, b, i, j + 1);
      if a[i] == b[j] {
        KeepTraced(a, b, ops, i, j);
        ops := ops + [Op(Keep, a[i])];
        i, j := i + 1, j + 1;
      } else if dp[Cell(m, i + 1, j)] >= dp[Cell(m, i, j + 1)] {
        RemoveTraced(a, b, ops, i, j);
        ops := ops + [Op(Remove, a[i])];
        i := i + 1;
      } else {
        AddTraced(a, b, ops, i, j);
        ops := ops + [Op(Add, b[j])];
        j := j + 1;
      }
    }
    if EndsWithAdd(ops) && i < n { NoRemoval(a, b, i, j); }
    ops := RemoveRest(a, ops, i);
    ops := AddRest(b, ops, j);
  }
}
