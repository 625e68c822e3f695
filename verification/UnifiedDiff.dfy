/**
 * Hunks of a unified diff, and an independent reading of what such a patch means: copy up to each
 * hunk, check its context and removed lines against the old text, and emit its context and added
 * lines. Headers are checked as they are applied.
 */
module UnifiedDiff {
  import opened Wrappers
  import opened Lines
  import opened Diff

  datatype Hunk = Hunk(aStart: nat, aCount: nat, bStart: nat, bCount: nat, lines: seq<string>)

  /** `omitted`: the header says that the line diff was left out because the content is too large. */
  datatype Patch = Patch(fromLabel: string, toLabel: string, hunks: seq<Hunk>, omitted: bool)

  // ----- applying a patch

  /** How much of the old text is consumed and what is emitted. */
  datatype Progress = Progress(pos: nat, out: seq<string>)

  function ApplyLine(a: seq<string>, p: Progress, line: string): Option<Progress> {
    if line == "" then None
    else if line[0] == '+' then Some(Progress(p.pos, p.out + [line[1..]]))
    else if p.pos >= |a| || a[p.pos] != line[1..] then None
    else if line[0] == ' ' then Some(Progress(p.pos + 1, p.out + [a[p.pos]]))
    else if line[0] == '-' then Some(Progress(p.pos + 1, p.out))
    else None
  }

  function ApplyLines(a: seq<string>, p: Progress, lines: seq<string>): Option<Progress> {
    if lines == [] then Some(p)
    else
      var before := ApplyLines(a, p, lines[..|lines| - 1]);
      if before.None? then None else ApplyLine(a, before.value, lines[|lines| - 1])
  }

  /** The header must say where the hunk lies on both sides and how many lines it spans, at least one each. */
  function ApplyHunk(a: seq<string>, p: Progress, h: Hunk): Option<Progress> {
    if !(p.pos + 1 <= h.aStart <= |a| + 1) || h.aCount < 1 || h.bCount < 1 then None
    else
      var copied := Progress(h.aStart - 1, p.out + a[p.pos..h.aStart - 1]);
      var applied := ApplyLines(a, copied, h.lines);
      if applied.None? || |copied.out| + 1 != h.bStart then None
      else if applied.value.pos != copied.pos + h.aCount || |applied.value.out| != |copied.out| + h.bCount then None
      else applied
  }

  function ApplyHunks(a: seq<string>, hunks: seq<Hunk>): Option<Progress> {
    if hunks == [] then Some(Progress(0, []))
    else
      var before := ApplyHunks(a, hunks[..|hunks| - 1]);
      if before.None? then None else ApplyHunk(a, before.value, hunks[|hunks| - 1])
  }

  function ApplyPatch(a: seq<string>, hunks: seq<Hunk>): Option<seq<string>> {
    var applied := ApplyHunks(a, hunks);
    if applied.None? || applied.value.pos > |a| then None
    else Some(applied.value.out + a[applied.value.pos..])
  }

  /** The number of added and removed lines a patch shows. */
  function ChangeLines(lines: seq<string>): nat {
    if lines == [] then 0
    else ChangeLines(lines[..|lines| - 1]) + if lines[|lines| - 1] != "" && lines[|lines| - 1][0] == ' ' then 0 else 1
  }

  function PatchChanges(hunks: seq<Hunk>): nat {
    if hunks == [] then 0 else PatchChanges(hunks[..|hunks| - 1]) + ChangeLines(hunks[|hunks| - 1].lines)
  }

  /** Hunks lie in order with at least one untouched line of each text between them. */
  predicate Spaced(hunks: seq<Hunk>) {
    forall i :: 1 <= i < |hunks| ==>
      && hunks[i - 1].aStart + hunks[i - 1].aCount < hunks[i].aStart
      && hunks[i - 1].bStart + hunks[i - 1].bCount < hunks[i].bStart
  }

  /** So many kept lines in a row separate two hunks. */
  const GAP: nat := 5

  predicate IsContext(line: string) { line != "" && line[0] == ' ' }

  ghost predicate ChangeWithin(lines: seq<string>, k: nat, n: nat)
    requires k + n <= |lines|
  {
    exists c :: k <= c < k + n && !IsContext(lines[c])
  }

  /** Among any `n` lines in a row one is added or removed. */
  ghost predicate NoRunOf(lines: seq<string>, n: nat) {
    forall k :: 0 <= k <= |lines| - n ==> ChangeWithin(lines, k, n)
  }

  /** Exactly the first `i` lines and the last `j` lines are context around the changes. */
  ghost predicate Framed(lines: seq<string>, i: nat, j: nat) {
    && i + j < |lines| && !IsContext(lines[i]) && !IsContext(lines[|lines| - 1 - j])
    && (forall k :: 0 <= k < i ==> IsContext(lines[k]))
    && forall k :: |lines| - j <= k < |lines| ==> IsContext(lines[k])
  }

  ghost predicate Surrounded(h: Hunk, aLength: nat, bLength: nat, i: nat, j: nat) {
    && i <= 2 && j <= 2 && Framed(h.lines, i, j)
    && (i < 2 ==> h.aStart == h.bStart == 1)
    && (j < 2 ==> h.aStart + h.aCount == aLength + 1 && h.bStart + h.bCount == bLength + 1)
  }

  /**
   * Two kept lines lead and trail a hunk, or fewer where a text begins or ends; inside, changes are never
   * more than four kept lines apart.
   */
  ghost predicate Compact(h: Hunk, a: seq<string>, b: seq<string>) {
    NoRunOf(h.lines, GAP) && exists i: nat, j: nat :: Surrounded(h, |a|, |b|, i, j)
  }

  /** The positions of hunks that are not. */
  ghost function Loose(hunks: seq<Hunk>, a: seq<string>, b: seq<string>): set<nat> {
    set i: nat | i < |hunks| && !Compact(hunks[i], a, b)
  }

  ghost predicate AllCompact(hunks: seq<Hunk>, a: seq<string>, b: seq<string>) { Loose(hunks, a, b) == {} }

  lemma CompactMeans(hunks: seq<Hunk>, a: seq<string>, b: seq<string>, i: nat)
    requires AllCompact(hunks, a, b) && i < |hunks|
    ensures Compact(hunks[i], a, b)
  {
    assert i !in Loose(hunks, a, b);
  }

  lemma OneMoreCompact(hunks: seq<Hunk>, h: Hunk, a: seq<string>, b: seq<string>)
    requires AllCompact(hunks, a, b) && Compact(h, a, b)
    ensures AllCompact(hunks + [h], a, b)
  {
    forall i: nat | i < |hunks| ensures Compact((hunks + [h])[i], a, b) { CompactMeans(hunks, a, b, i); }
  }

  // ----- edit scripts cut at a position

  ghost function At(ops: seq<Op>, k: nat): Progress
    requires k <= |ops|
  {
    Progress(|Old(ops[..k])|, New(ops[..k]))
  }

  lemma Advance(ops: seq<Op>, k: nat)
    requires k < |ops|
    ensures Old(ops[..k + 1]) == Old(ops[..k]) + if ops[k].kind.Add? then [] else [ops[k].line]
    ensures New(ops[..k + 1]) == New(ops[..k]) + if ops[k].kind.Remove? then [] else [ops[k].line]
    ensures Changed(ops[..k + 1]) == Changed(ops[..k]) + if ops[k].kind.Keep? then 0 else 1
  {
    assert ops[..k + 1] == ops[..k] + [ops[k]];
    Extend(ops[..k], ops[k]);
  }

  lemma {:induction false} OldPrefix(ops: seq<Op>, i: nat, j: nat)
    requires i <= j <= |ops|
    ensures Old(ops[..i]) <= Old(ops[..j]) && New(ops[..i]) <= New(ops[..j])
    ensures (exists k :: i <= k < j && !ops[k].kind.Add?) ==> |Old(ops[..i])| < |Old(ops[..j])|
    ensures (exists k :: i <= k < j && !ops[k].kind.Remove?) ==> |New(ops[..i])| < |New(ops[..j])|
    decreases j - i
  {
    if i < j {
      OldPrefix(ops, i, j - 1);
      Advance(ops, j - 1);
    }
  }

  lemma CopyOneMore(base: seq<string>, old_: seq<string>, from: nat, line: string)
    requires from <= |old_|
    ensures base + old_[from..] + [line] == base + (old_ + [line])[from..]
  {
  }

  /** A stretch of kept lines is copied unchanged. */
  lemma {:induction false} KeepStretch(ops: seq<Op>, i: nat, j: nat)
    requires i <= j <= |ops| && forall k :: i <= k < j ==> ops[k].kind.Keep?
    ensures |Old(ops[..j])| == |Old(ops[..i])| + (j - i) && |New(ops[..j])| == |New(ops[..i])| + (j - i)
    ensures New(ops[..j]) == New(ops[..i]) + Old(ops[..j])[|Old(ops[..i])|..]
    ensures Changed(ops[..j]) == Changed(ops[..i])
    decreases j - i
  {
    if i < j {
      KeepStretch(ops, i, j - 1);
      Advance(ops, j - 1);
      CopyOneMore(New(ops[..i]), Old(ops[..j - 1]), |Old(ops[..i])|, ops[j - 1].line);
    }
  }

  function Mark(op: Op): string {
    match op.kind
    case Keep => [' '] + op.line
    case Remove => ['-'] + op.line
    case Add => ['+'] + op.line
  }

  ghost function Marked(ops: seq<Op>): seq<string> {
    if ops == [] then [] else Marked(ops[..|ops| - 1]) + [Mark(ops[|ops| - 1])]
  }

  lemma ApplyMark(a: seq<string>, p: Progress, op: Op)
    requires op.kind.Add? || (p.pos < |a| && a[p.pos] == op.line)
    ensures ApplyLine(a, p, Mark(op))
         == Some(Progress(p.pos + if op.kind.Add? then 0 else 1, p.out + if op.kind.Remove? then [] else [op.line]))
  {
    assert Mark(op)[1..] == op.line;
    if op.kind.Remove? { assert p.out + [] == p.out; }
  }

  lemma LineAt(ops: seq<Op>, k: nat)
    requires k < |ops| && !ops[k].kind.Add?
    ensures |Old(ops[..k])| < |Old(ops)| && Old(ops)[|Old(ops[..k])|] == ops[k].line
  {
    Advance(ops, k);
    var before, after := Old(ops[..k]), Old(ops[..k + 1]);
    assert after[|before|] == ops[k].line;
    OldPrefix(ops, k + 1, |ops|);
    assert ops[..|ops|] == ops;
  }

  lemma MarkApplies(ops: seq<Op>, k: nat)
    requires k < |ops|
    ensures ApplyLine(Old(ops), At(ops, k), Mark(ops[k])) == Some(At(ops, k + 1))
  {
    if !ops[k].kind.Add? { LineAt(ops, k); }
    var p, op := At(ops, k), ops[k];
    ApplyMark(Old(ops), p, op);
    Advance(ops, k);
    assert At(ops, k + 1)
             == Progress(p.pos + if op.kind.Add? then 0 else 1, p.out + if op.kind.Remove? then [] else [op.line]);
  }

  lemma {:induction false} MarkedLength(ops: seq<Op>)
    ensures |Marked(ops)| == |ops|
  {
    if ops != [] { MarkedLength(ops[..|ops| - 1]); }
  }

  lemma {:induction false} MarkedAt(ops: seq<Op>, k: nat)
    requires k < |ops|
    ensures |Marked(ops)| == |ops| && Marked(ops)[k] == Mark(ops[k])
    ensures IsContext(Marked(ops)[k]) <==> ops[k].kind.Keep?
  {
    MarkedLength(ops);
    if k < |ops| - 1 {
      MarkedAt(ops[..|ops| - 1], k);
    } else {
      MarkedLength(ops[..k]);
    }
  }

  /** Line by line from state to state is all lines from the first state to the last. */
  lemma {:induction false} ApplyAll(a: seq<string>, states: seq<Progress>, lines: seq<string>)
    requires |states| == |lines| + 1
    requires forall k :: 0 <= k < |lines| ==> ApplyLine(a, states[k], lines[k]) == Some(states[k + 1])
    ensures ApplyLines(a, states[0], lines) == Some(states[|lines|])
  {
    if lines != [] {
      var n := |lines| - 1;
      ApplyAll(a, states[..n + 1], lines[..n]);
      assert ApplyLine(a, states[n], lines[n]) == Some(states[n + 1]);
    }
  }

  /** Where each line of a stretch leaves a patcher. */
  ghost function StatesOf(ops: seq<Op>, i: nat, j: nat): (states: seq<Progress>)
    requires i <= j <= |ops|
    ensures |states| == j - i + 1 && states[0] == At(ops, i) && states[j - i] == At(ops, j)
    ensures forall k :: 0 <= k <= j - i ==> states[k] == At(ops, i + k)
    decreases j - i
  {
    if i == j then [At(ops, i)] else StatesOf(ops, i, j - 1) + [At(ops, j)]
  }

  /** The marked lines of a stretch of the script carry the old text from its start to its end. */
  lemma MarkedApplies(ops: seq<Op>, i: nat, j: nat)
    requires i <= j <= |ops|
    ensures ApplyLines(Old(ops), At(ops, i), Marked(ops[i..j])) == Some(At(ops, j))
  {
    var lines, states := Marked(ops[i..j]), StatesOf(ops, i, j);
    MarkedLength(ops[i..j]);
    forall k | 0 <= k < |lines| ensures ApplyLine(Old(ops), states[k], lines[k]) == Some(states[k + 1]) {
      MarkedAt(ops[i..j], k);
      MarkApplies(ops, i + k);
    }
    ApplyAll(Old(ops), states, lines);
  }

  lemma MarkedStep(ops: seq<Op>, i: nat, j: nat)
    requires i < j <= |ops|
    ensures var lines := Marked(ops[i..j]);
            lines != [] && lines[..|lines| - 1] == Marked(ops[i..j - 1]) && lines[|lines| - 1] == Mark(ops[j - 1])
  {
    assert ops[i..j][..j - i - 1] == ops[i..j - 1];
  }

  /** The marked lines of a stretch show its changes. */
  lemma {:induction false} MarkedChanges(ops: seq<Op>, i: nat, j: nat)
    requires i <= j <= |ops|
    ensures ChangeLines(Marked(ops[i..j])) == Changed(ops[..j]) - Changed(ops[..i])
    decreases j - i
  {
    if i < j {
      MarkedChanges(ops, i, j - 1);
      MarkedStep(ops, i, j);
      Advance(ops, j - 1);
    }
  }

  ghost function HunkOf(ops: seq<Op>, start: nat, stop: nat): Hunk
    requires start <= stop <= |ops|
  {
    OldPrefix(ops, start, stop);
    Hunk(|Old(ops[..start])| + 1, |Old(ops[..stop])| - |Old(ops[..start])|,
         |New(ops[..start])| + 1, |New(ops[..stop])| - |New(ops[..start])|, Marked(ops[start..stop]))
  }

  /** Copying the kept lines in front of a hunk brings both sides to its start. */
  lemma CopyReachesHunk(ops: seq<Op>, done: nat, start: nat)
    requires done <= start <= |ops| && forall k :: done <= k < start ==> ops[k].kind.Keep?
    ensures |Old(ops[..done])| <= |Old(ops[..start])| <= |Old(ops)|
    ensures New(ops[..done]) + Old(ops)[|Old(ops[..done])|..|Old(ops[..start])|] == New(ops[..start])
  {
    KeepStretch(ops, done, start);
    OldPrefix(ops, start, |ops|);
    OldPrefix(ops, done, start);
    assert ops[..|ops|] == ops;
    assert Old(ops[..start])[|Old(ops[..done])|..] == Old(ops)[|Old(ops[..done])|..|Old(ops[..start])|];
  }

  /** A hunk that follows a stretch of kept lines applies where the previous hunk ended. */
  lemma HunkApplies(ops: seq<Op>, done: nat, start: nat, stop: nat)
    requires done <= start <= stop <= |ops|
    requires forall k :: done <= k < start ==> ops[k].kind.Keep?
    requires HunkOf(ops, start, stop).aCount >= 1 && HunkOf(ops, start, stop).bCount >= 1
    ensures ApplyHunk(Old(ops), At(ops, done), HunkOf(ops, start, stop)) == Some(At(ops, stop))
  {
    CopyReachesHunk(ops, done, start);
    MarkedApplies(ops, start, stop);
  }

  // ----- grouping

  ghost predicate ChangesNear(ops: seq<Op>, k: nat)
    requires k + 2 * CONTEXT < |ops|
  {
    exists c :: k <= c <= k + 2 * CONTEXT && !ops[c].kind.Keep?
  }

  /** From `idx` on, no more than `2 * CONTEXT` kept lines come in a row before `end`. */
  ghost predicate Bridged(ops: seq<Op>, idx: nat, end: nat)
    requires end <= |ops|
  {
    forall k :: idx <= k && k + 2 * CONTEXT < end ==> ChangesNear(ops, k)
  }

  /**
   * The changed run that starts at `idx` ends at `end`: it bridges short stretches of kept lines, and only
   * a long or a final one follows.
   */
  ghost predicate RunEnds(ops: seq<Op>, idx: nat, end: nat) {
    && idx < end <= |ops| && !ops[end - 1].kind.Keep? && Bridged(ops, idx, end)
    && (|| (forall k :: end <= k < |ops| ==> ops[k].kind.Keep?)
        || (end + 2 * CONTEXT < |ops| && forall k :: end <= k <= end + 2 * CONTEXT ==> ops[k].kind.Keep?))
  }

  lemma ChangeExtends(ops: seq<Op>, idx: nat, end: nat)
    requires idx <= end < |ops| && Bridged(ops, idx, end) && !ops[end].kind.Keep?
    ensures Bridged(ops, idx, end + 1)
  {
    forall k | idx <= k && k + 2 * CONTEXT < end + 1 ensures ChangesNear(ops, k) {
      if k + 2 * CONTEXT == end { assert !ops[end].kind.Keep?; }
    }
  }

  lemma GapIsBridged(ops: seq<Op>, idx: nat, end: nat, probe: nat)
    requires idx < end <= probe < |ops| && probe - end <= 2 * CONTEXT && Bridged(ops, idx, end)
    requires !ops[end - 1].kind.Keep?
    ensures Bridged(ops, idx, probe)
  {
    forall k | idx <= k && k + 2 * CONTEXT < probe ensures ChangesNear(ops, k) {
      if k + 2 * CONTEXT >= end { assert k <= end - 1 <= k + 2 * CONTEXT; }
    }
  }

  method FindEnd(ops: seq<Op>, idx: nat) returns (end: nat)
    requires idx < |ops| && !ops[idx].kind.Keep?
    ensures RunEnds(ops, idx, end)
  {
    end := idx;
    while end < |ops|
      invariant idx <= end <= |ops| && Bridged(ops, idx, end)
      invariant end < |ops| && ops[end].kind.Keep? ==> idx < end && !ops[end - 1].kind.Keep?
      invariant end == |ops| ==> !ops[end - 1].kind.Keep?
      decreases |ops| - end
    {
      if !ops[end].kind.Keep? {
        ChangeExtends(ops, idx, end);
        end := end + 1;
        continue;
      }
      var run, probe := 0, end;
      while probe < |ops| && ops[probe].kind.Keep?
        invariant end <= probe <= |ops| && run == probe - end
        invariant forall k :: end <= k < probe ==> ops[k].kind.Keep?
      {
        run, probe := run + 1, probe + 1;
      }
      if probe < |ops| && run <= CONTEXT * 2 {
        GapIsBridged(ops, idx, end, probe);
        end := probe;
        continue;
      }
      break;
    }
  }

  /** How many old and new lines precede position `start` of the script. */
  method CountLines(ops: seq<Op>, start: nat) returns (aLine: nat, bLine: nat)
    requires start <= |ops|
    ensures aLine == |Old(ops[..start])| && bLine == |New(ops[..start])|
  {
    aLine, bLine := 0, 0;
    for k := 0 to start
      invariant aLine == |Old(ops[..k])| && bLine == |New(ops[..k])|
    {
      Advance(ops, k);
      if !ops[k].kind.Add? { aLine := aLine + 1; }
      if !ops[k].kind.Remove? { bLine := bLine + 1; }
    }
  }

  method BuildHunk(ops: seq<Op>, start: nat, stop: nat) returns (hunk: Hunk)
    requires start <= stop <= |ops|
    ensures hunk == HunkOf(ops, start, stop)
  {
    var aLine, bLine := CountLines(ops, start);
    var aCount, bCount := 0, 0;
    var lines: seq<string> := [];
    for k := start to stop
      invariant lines == Marked(ops[start..k])
      invariant aCount + aLine == |Old(ops[..k])| && bCount + bLine == |New(ops[..k])|
    {
      Advance(ops, k);
      assert ops[start..k + 1][..k - start] == ops[start..k];
      var op := ops[k];
      if op.kind.Keep? {
        lines := lines + [[' '] + op.line];
        aCount, bCount := aCount + 1, bCount + 1;
      } else if op.kind.Remove? {
        lines := lines + [['-'] + op.line];
        aCount := aCount + 1;
      } else {
        lines := lines + [['+'] + op.line];
        bCount := bCount + 1;
      }
    }
    return Hunk(aLine + 1, aCount, bLine + 1, bCount, lines);
  }

  /** From `i` up to `j` every line is kept. */
  ghost predicate KeptBetween(ops: seq<Op>, i: nat, j: nat)
    requires j <= |ops|
  {
    j <= i || (ops[j - 1].kind.Keep? && KeptBetween(ops, i, j - 1))
  }

  /** The hunks emitted so far, up to position `done` of the script. */
  ghost predicate Emitted(ops: seq<Op>, hunks: seq<Hunk>, done: nat)
    requires done <= |ops|
  {
    && ApplyHunks(Old(ops), hunks) == Some(At(ops, done))
    && PatchChanges(hunks) == Changed(ops[..done])
    && Spaced(hunks)
    && (hunks == [] ==> done == 0)
    && (hunks != [] ==>
          && hunks[|hunks| - 1].aStart + hunks[|hunks| - 1].aCount == |Old(ops[..done])| + 1
          && hunks[|hunks| - 1].bStart + hunks[|hunks| - 1].bCount == |New(ops[..done])| + 1
          && KeptBetween(ops, done, Min(|ops|, done + CONTEXT + 1)))
  }

  lemma {:induction false} KeptMeans(ops: seq<Op>, i: nat, j: nat)
    requires j <= |ops|
    ensures KeptBetween(ops, i, j) <==> forall k :: i <= k < j ==> ops[k].kind.Keep?
  {
    if i < j { KeptMeans(ops, i, j - 1); }
  }

  /** Around a changed run there is context, or the run reaches an end of a text that is not empty. */
  lemma HunkSpansBothSides(ops: seq<Op>, hunks: seq<Hunk>, done: nat, idx: nat, end: nat)
    requires done <= idx && RunEnds(ops, idx, end) && Emitted(ops, hunks, done)
    requires forall k :: done <= k < idx ==> ops[k].kind.Keep?
    requires !ops[idx].kind.Keep? && Old(ops) != [] && New(ops) != []
    ensures var start, stop := if idx < CONTEXT then 0 else idx - CONTEXT, Min(|ops|, end + CONTEXT);
            && (hunks == [] ==> done <= start) && (hunks != [] ==> done < start)
            && HunkOf(ops, start, stop).aCount >= 1 && HunkOf(ops, start, stop).bCount >= 1
  {
    var start, stop := if idx < CONTEXT then 0 else idx - CONTEXT, Min(|ops|, end + CONTEXT);
    KeptMeans(ops, done, Min(|ops|, done + CONTEXT + 1));
    OldPrefix(ops, start, stop);
    if idx > 0 {
      assert ops[idx - 1].kind.Keep? && start <= idx - 1 < stop;
    } else if end < |ops| {
      assert ops[end].kind.Keep? && start <= end < stop;
    } else {
      assert ops[..stop] == ops && ops[..start] == [];
    }
  }

  lemma LinesOfStretch(ops: seq<Op>, start: nat, stop: nat)
    requires start <= stop <= |ops|
    ensures |Marked(ops[start..stop])| == stop - start
    ensures forall k ::
              0 <= k < stop - start ==> (IsContext(Marked(ops[start..stop])[k]) <==> ops[start + k].kind.Keep?)
  {
    MarkedLength(ops[start..stop]);
    forall k | 0 <= k < stop - start ensures IsContext(Marked(ops[start..stop])[k]) <==> ops[start + k].kind.Keep? {
      MarkedAt(ops[start..stop], k);
    }
  }

  lemma StretchIsFramed(ops: seq<Op>, done: nat, idx: nat, end: nat, start: nat, stop: nat)
    requires RunEnds(ops, idx, end) && !ops[idx].kind.Keep? && done <= start <= idx
    requires forall k :: done <= k < idx ==> ops[k].kind.Keep?
    requires end <= stop <= |ops| && stop <= end + CONTEXT
    ensures Framed(Marked(ops[start..stop]), idx - start, stop - end)
  {
    LinesOfStretch(ops, start, stop);
  }

  lemma LinesChange(ops: seq<Op>, idx: nat, end: nat, start: nat, stop: nat, k: nat)
    requires RunEnds(ops, idx, end) && !ops[idx].kind.Keep?
    requires start <= idx <= start + CONTEXT && end <= stop <= |ops| && stop <= end + CONTEXT && k + GAP <= stop - start
    ensures |Marked(ops[start..stop])| == stop - start && ChangeWithin(Marked(ops[start..stop]), k, GAP)
  {
    LinesOfStretch(ops, start, stop);
    var lines, at := Marked(ops[start..stop]), start + k;
    var c :| at <= c <= at + 2 * CONTEXT && !ops[c].kind.Keep? by {
      if at <= idx {
        assert at <= idx <= at + 2 * CONTEXT;
      } else if at + 2 * CONTEXT < end {
        assert ChangesNear(ops, at);
      } else {
        assert at <= end - 1 <= at + 2 * CONTEXT;
      }
    }
    assert !IsContext(lines[c - start]);
  }

  lemma StretchHasNoRun(ops: seq<Op>, idx: nat, end: nat, start: nat, stop: nat)
    requires RunEnds(ops, idx, end) && !ops[idx].kind.Keep?
    requires start <= idx <= start + CONTEXT && end <= stop <= |ops| && stop <= end + CONTEXT
    ensures NoRunOf(Marked(ops[start..stop]), GAP)
  {
    LinesOfStretch(ops, start, stop);
    var lines, n := Marked(ops[start..stop]), GAP;
    forall k | 0 <= k <= |lines| - n ensures ChangeWithin(lines, k, n) { LinesChange(ops, idx, end, start, stop, k); }
  }

  lemma HunkIsSurrounded(ops: seq<Op>, idx: nat, end: nat, start: nat, stop: nat)
    requires start <= idx < end <= stop <= |ops| && Framed(Marked(ops[start..stop]), idx - start, stop - end)
    requires idx - start <= CONTEXT && stop - end <= CONTEXT
    requires (idx - start < CONTEXT ==> start == 0) && (stop - end < CONTEXT ==> stop == |ops|)
    ensures Surrounded(HunkOf(ops, start, stop), |Old(ops)|, |New(ops)|, idx - start, stop - end)
  {
    assert ops[..0] == [] && ops[..|ops|] == ops;
    OldPrefix(ops, start, stop);
  }

  /** A run with its context makes a compact hunk. */
  lemma HunkIsCompact(ops: seq<Op>, done: nat, idx: nat, end: nat)
    requires RunEnds(ops, idx, end) && !ops[idx].kind.Keep?
    requires done <= (if idx < CONTEXT then 0 else idx - CONTEXT) && forall k :: done <= k < idx ==> ops[k].kind.Keep?
    ensures var start, stop := if idx < CONTEXT then 0 else idx - CONTEXT, Min(|ops|, end + CONTEXT);
            Compact(HunkOf(ops, start, stop), Old(ops), New(ops))
  {
    var start, stop := if idx < CONTEXT then 0 else idx - CONTEXT, Min(|ops|, end + CONTEXT);
    StretchIsFramed(ops, done, idx, end, start, stop);
    StretchHasNoRun(ops, idx, end, start, stop);
    HunkIsSurrounded(ops, idx, end, start, stop);
  }

  /** The next hunk applies where the last one ended, and carries the changes up to its own end. */
  lemma NextHunkApplies(ops: seq<Op>, hunks: seq<Hunk>, done: nat, start: nat, stop: nat)
    requires done <= start <= stop <= |ops| && Emitted(ops, hunks, done)
    requires forall k :: done <= k < start ==> ops[k].kind.Keep?
    requires HunkOf(ops, start, stop).aCount >= 1 && HunkOf(ops, start, stop).bCount >= 1
    ensures ApplyHunks(Old(ops), hunks + [HunkOf(ops, start, stop)]) == Some(At(ops, stop))
    ensures PatchChanges(hunks + [HunkOf(ops, start, stop)]) == Changed(ops[..stop])
  {
    var next := hunks + [HunkOf(ops, start, stop)];
    assert next[..|next| - 1] == hunks;
    HunkApplies(ops, done, start, stop);
    KeepStretch(ops, done, start);
    MarkedChanges(ops, start, stop);
  }

  lemma NextHunkIsSpaced(ops: seq<Op>, hunks: seq<Hunk>, done: nat, start: nat, stop: nat)
    requires done <= start <= stop <= |ops| && (hunks != [] ==> done < start) && Emitted(ops, hunks, done)
    requires forall k :: done <= k < start ==> ops[k].kind.Keep?
    requires HunkOf(ops, start, stop).aCount >= 1 && HunkOf(ops, start, stop).bCount >= 1
    ensures Spaced(hunks + [HunkOf(ops, start, stop)])
  {
    KeepStretch(ops, done, start);
    OldPrefix(ops, start, stop);
  }

  lemma EmitHunk(ops: seq<Op>, hunks: seq<Hunk>, done: nat, start: nat, stop: nat)
    requires done <= start <= stop <= |ops| && (hunks != [] ==> done < start)
    requires Emitted(ops, hunks, done)
    requires forall k :: done <= k < start ==> ops[k].kind.Keep?
    requires KeptBetween(ops, stop, Min(|ops|, stop + CONTEXT + 1))
    requires HunkOf(ops, start, stop).aCount >= 1 && HunkOf(ops, start, stop).bCount >= 1
    ensures Emitted(ops, hunks + [HunkOf(ops, start, stop)], stop)
  {
    NextHunkApplies(ops, hunks, done, start, stop);
    NextHunkIsSpaced(ops, hunks, done, start, stop);
    OldPrefix(ops, start, stop);
  }

  /** The hunk of the changed run at `idx`, with its context. */
  method NextHunk(ops: seq<Op>, idx: nat, ghost hunks: seq<Hunk>, ghost done: nat) returns (hunk: Hunk, stop: nat)
    requires Old(ops) != [] && New(ops) != [] && done <= idx < |ops| && !ops[idx].kind.Keep?
    requires Emitted(ops, hunks, done) && KeptBetween(ops, done, idx)
    requires AllCompact(hunks, Old(ops), New(ops))
    ensures idx < stop <= |ops| && Emitted(ops, hunks + [hunk], stop) && AllCompact(hunks + [hunk], Old(ops), New(ops))
  {
    var end := FindEnd(ops, idx);
    var start := if idx < CONTEXT then 0 else idx - CONTEXT;
    stop := Min(|ops|, end + CONTEXT);
    KeptMeans(ops, done, idx);
    HunkSpansBothSides(ops, hunks, done, idx, end);
    HunkIsCompact(ops, done, idx, end);
    hunk := BuildHunk(ops, start, stop);
    OneMoreCompact(hunks, hunk, Old(ops), New(ops));
    KeptMeans(ops, stop, Min(|ops|, stop + CONTEXT + 1));
    EmitHunk(ops, hunks, done, start, stop);
  }

  /** With nothing but kept lines left the hunks are the whole patch. */
  lemma AllEmitted(ops: seq<Op>, hunks: seq<Hunk>, done: nat)
    requires done <= |ops| && Emitted(ops, hunks, done) && KeptBetween(ops, done, |ops|)
    ensures ApplyPatch(Old(ops), hunks) == Some(New(ops)) && PatchChanges(hunks) == Changed(ops) && Spaced(hunks)
  {
    KeptMeans(ops, done, |ops|);
    KeepStretch(ops, done, |ops|);
    assert ops[..|ops|] == ops;
  }

  method GroupHunks(ops: seq<Op>) returns (hunks: seq<Hunk>)
    requires Old(ops) != [] && New(ops) != []
    ensures ApplyPatch(Old(ops), hunks) == Some(New(ops))
    ensures PatchChanges(hunks) == Changed(ops)
    ensures Spaced(hunks) && AllCompact(hunks, Old(ops), New(ops))
  {
    hunks := [];
    var idx := 0;
    ghost var done := 0;
    while idx < |ops|
      invariant 0 <= done <= idx <= |ops|
      invariant Emitted(ops, hunks, done) && AllCompact(hunks, Old(ops), New(ops))
      invariant KeptBetween(ops, done, idx)
      decreases |ops| - idx
    {
      if ops[idx].kind.Keep? {
        idx := idx + 1;
        continue;
      }
      var hunk, stop := NextHunk(ops, idx, hunks, done);
      hunks := hunks + [hunk];
      idx, done := stop, stop;
    }
    AllEmitted(ops, hunks, done);
  }

  lemma WholeHunkApplies(ops: seq<Op>, hunk: Hunk)
    requires Old(ops) != [] && New(ops) != []
    requires hunk == Hunk(1, |Old(ops)|, 1, |New(ops)|, Marked(ops))
    ensures ApplyPatch(Old(ops), [hunk]) == Some(New(ops))
  {
    assert ops[..|ops|] == ops && ops[0..|ops|] == ops && ops[..0] == [];
    assert hunk == HunkOf(ops, 0, |ops|);
    HunkApplies(ops, 0, 0, |ops|);
    var whole := [hunk];
    assert whole[..|whole| - 1] == [] && At(ops, 0) == Progress(0, []);
    assert ApplyHunks(Old(ops), whole) == ApplyHunk(Old(ops), Progress(0, []), hunk);
    assert New(ops) + Old(ops)[|Old(ops)|..] == New(ops);
  }

  /** Too large for a table: everything is removed and added in one hunk. */
  method CoarseHunk(a: seq<string>, b: seq<string>) returns (hunk: Hunk)
    requires a != [] && b != []
    ensures ApplyPatch(a, [hunk]) == Some(b) && ChangeLines(hunk.lines) == |a| + |b|
  {
    var lines: seq<string> := [];
    ghost var ops: seq<Op> := [];
    for i := 0 to |a|
      invariant Old(ops) == a[..i] && New(ops) == [] && Changed(ops) == i && Marked(ops) == lines
    {
      Extend(ops, Op(Remove, a[i]));
      assert (ops + [Op(Remove, a[i])])[..|ops|] == ops;
      ops := ops + [Op(Remove, a[i])];
      lines := lines + [['-'] + a[i]];
    }
    for j := 0 to |b|
      invariant Old(ops) == a[..|a|] && New(ops) == b[..j] && Changed(ops) == |a| + j && Marked(ops) == lines
    {
      Extend(ops, Op(Add, b[j]));
      assert (ops + [Op(Add, b[j])])[..|ops|] == ops;
      ops := ops + [Op(Add, b[j])];
      lines := lines + [['+'] + b[j]];
    }
    hunk := Hunk(1, |a|, 1, |b|, lines);
    assert a[..|a|] == a && b[..|b|] == b;
    WholeHunkApplies(ops, hunk);
    MarkedChanges(ops, 0, |ops|);
    assert ops[0..|ops|] == ops && ops[..|ops|] == ops && ops[..0] == [];
  }

  /** The line diff of two lists of lines that are not empty. */
  method LineDiff(a: seq<string>, b: seq<string>) returns (hunks: seq<Hunk>)
    requires a != [] && b != [] && (|a| + 1) * (|b| + 1) <= MAX_CELLS
    ensures ApplyPatch(a, hunks) == Some(b) && Spaced(hunks) && AllCompact(hunks, a, b)
    ensures PatchChanges(hunks) == |a| + |b| - 2 * Lcs(a, b, 0, 0)
  {
    var ops := LcsOps(a, b);
    ChangedCounts(ops);
    hunks := GroupHunks(ops);
  }

  /**
   * The patch turns `a` into `b` under these labels. Up to four million cells it is compact and changes as
   * few lines as possible; beyond, it says so and replaces everything in one hunk.
   */
  ghost predicate IsDiff(patch: Patch, a: seq<string>, b: seq<string>, fromLabel: string, toLabel: string) {
    && patch.fromLabel == fromLabel && patch.toLabel == toLabel
    && ApplyPatch(a, patch.hunks) == Some(b) && Spaced(patch.hunks)
    && (patch.omitted <==> (|a| + 1) * (|b| + 1) > 4_000_000)
    && (patch.omitted ==> |patch.hunks| == 1 && PatchChanges(patch.hunks) == |a| + |b|)
    && (!patch.omitted ==>
         AllCompact(patch.hunks, a, b) && PatchChanges(patch.hunks) == |a| + |b| - 2 * Lcs(a, b, 0, 0))
  }

  method PatchOf(a: seq<string>, b: seq<string>, fromLabel: string, toLabel: string) returns (patch: Patch)
    requires a != [] && b != []
    ensures IsDiff(patch, a, b, fromLabel, toLabel)
  {
    if (|a| + 1) * (|b| + 1) > MAX_CELLS {
      var hunk := CoarseHunk(a, b);
      return Patch(fromLabel, toLabel, [hunk], true);
    }
    var hunks := LineDiff(a, b);
    return Patch(fromLabel, toLabel, hunks, false);
  }

  /** The diff of two texts; `None` stands for the empty diff of equal texts. */
  method Unified(prev: string, next: string, fromLabel: string, toLabel: string) returns (patch: Option<Patch>)
    ensures patch.None? <==> prev == next
    ensures patch.Some? ==>
              && IsDiff(patch.value, Split(prev), Split(next), fromLabel, toLabel)
              && Join(ApplyPatch(Split(prev), patch.value.hunks).value) == next
  {
    if prev == next { return None; }
    JoinSplit(next);
    var found := PatchOf(Split(prev), Split(next), fromLabel, toLabel);
    return Some(found);
  }
}
