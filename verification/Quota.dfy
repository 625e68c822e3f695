/** Quotas over several budgets, each with its own in-process limiter. */
module Quota {
  import opened SlidingWindow
  import opened RateLimiter
  import opened QuotaPlan

  ghost predicate Distinct(limiters: seq<InProcessRateLimiter>) {
    forall i, j :: 0 <= i < j < |limiters| ==> limiters[i] != limiters[j]
  }

  /** The charges after forgetting some identities and charging one. */
  ghost predicate Moved(before: Histories, after: Histories, key: string, forgotten: set<string>, charge: seq<nat>) {
    forall k :: Charges(after, k) ==
      if k == key then Charges(before, k) + charge else if k in forgotten then [] else Charges(before, k)
  }

  lemma MovedByEvaluate(before: Histories, key: string, forgotten: set<string>, charge: seq<nat>)
    ensures Moved(before, (before - forgotten)[key := Charges(before, key) + charge], key, forgotten, charge)
  {
  }

  lemma MovedTwice(h0: Histories, h1: Histories, h2: Histories, key: string, forgotten: set<string>, charge: seq<nat>)
    requires Moved(h0, h1, key, forgotten, []) && Moved(h1, h2, key, {}, charge)
    ensures Moved(h0, h2, key, forgotten, charge)
  {
    forall k ensures Charges(h2, k) ==
      if k == key then Charges(h0, k) + charge else if k in forgotten then [] else Charges(h0, k)
    {
      assert Charges(h1, k) == if k == key then Charges(h0, k) + [] else if k in forgotten then [] else Charges(h0, k);
      assert Charges(h0, k) + [] == Charges(h0, k);
    }
  }

  /** What a limiter remembers at one moment. */
  datatype Snapshot = Snapshot(history: Histories, windows: map<string, Window>)

  ghost function Now(l: InProcessRateLimiter): Snapshot reads l { Snapshot(l.history, l.windows) }

  /** The answer is the one the full history dictates, and only the ceiling forgets anyone. */
  ghost predicate Answered(
    l: InProcessRateLimiter, before: Snapshot, key: string, now: nat, verdict: RateLimitResult, forgotten: set<string>)
  {
    && l.limit >= 1 && HistoryOk(Charges(before.history, key), l.limit, l.windowMs, now)
    && verdict == Verdict(Charges(before.history, key), l.limit, l.windowMs, now, false)
    && Victims(before.windows, key, l.maxIdentities, l.windowMs, now, forgotten)
  }

  /**
   * One budget after a whole request: it answered from the charges it had on arrival, and was charged
   * exactly `charge`.
   */
  ghost predicate Settled(
    l: InProcessRateLimiter, before: Snapshot, key: string, now: nat, verdict: RateLimitResult, forgotten: set<string>,
    charge: seq<nat>)
    reads l
  {
    && Answered(l, before, key, now, verdict, forgotten)
    && Moved(before.history, l.history, key, forgotten, charge)
  }

  /** What the check of one budget did: it answered from the full history, and charged nothing. */
  ghost predicate Checked(
    l: InProcessRateLimiter, before: Snapshot, key: string, now: nat, verdict: RateLimitResult, forgotten: set<string>)
    reads l
  {
    && l.Valid() && l.clock == now && Settled(l, before, key, now, verdict, forgotten, [])
    && (key in l.windows || |l.windows| < l.maxIdentities)
  }

  /** A checked budget with room: the charge that follows needs no eviction and is not refused. */
  ghost predicate Ready(l: InProcessRateLimiter, key: string, now: nat)
    reads l
  {
    && l.Valid() && l.clock <= now
    && CountLive(Charges(l.history, key), l.windowMs, l.clock) < l.limit
    && (key in l.windows || |l.windows| < l.maxIdentities)
  }

  ghost predicate Consumed(l: InProcessRateLimiter, before: Snapshot, key: string, now: nat)
    reads l
  {
    l.Valid() && l.clock == now && Moved(before.history, l.history, key, {}, [now])
  }

  method CheckOne(l: InProcessRateLimiter, key: string, now: nat)
    returns (verdict: RateLimitResult, ghost forgotten: set<string>)
    requires l.Valid() && l.clock <= now
    modifies l
    ensures Checked(l, old(Now(l)), key, now, verdict, forgotten)
  {
    verdict, forgotten := l.Evaluate(key, false, now);
    MovedByEvaluate(old(l.history), key, forgotten, []);
  }

  method ConsumeOne(l: InProcessRateLimiter, key: string, now: nat)
    requires Ready(l, key, now)
    modifies l
    ensures Consumed(l, old(Now(l)), key, now)
  {
    assert HistoryOk(Charges(l.history, key), l.limit, l.windowMs, l.clock);
    AllowedStaysAllowed(Charges(l.history, key), l.limit, l.windowMs, l.clock, now);
    var verdict, forgotten := l.Evaluate(key, true, now);
    assert forgotten == {};
    MovedByEvaluate(old(l.history), key, {}, [now]);
  }

  /** The check of every budget before any is charged. */
  method CheckAll(limiters: seq<InProcessRateLimiter>, keys: seq<string>, readings: seq<nat>)
    returns (verdicts: seq<RateLimitResult>, ghost forgotten: seq<set<string>>)
    requires |limiters| == |keys| == |readings| && Distinct(limiters)
    requires forall i :: 0 <= i < |limiters| ==> limiters[i].Valid() && limiters[i].clock <= readings[i]
    modifies limiters
    ensures |verdicts| == |forgotten| == |limiters|
    ensures forall i :: 0 <= i < |limiters| ==>
              Checked(limiters[i], old(Now(limiters[i])), keys[i], readings[i], verdicts[i], forgotten[i])
  {
    verdicts, forgotten := [], [];
    for k := 0 to |limiters|
      invariant |verdicts| == |forgotten| == k
      invariant forall i :: 0 <= i < k ==>
                  Checked(limiters[i], old(Now(limiters[i])), keys[i], readings[i], verdicts[i], forgotten[i])
      invariant forall i :: k <= i < |limiters| ==> unchanged(limiters[i])
    {
      var verdict, victims := CheckOne(limiters[k], keys[k], readings[k]);
      verdicts, forgotten := verdicts + [verdict], forgotten + [victims];
    }
  }

  /** Budgets that have changed since, or that cannot be charged. */
  ghost function Unready(
    limiters: seq<InProcessRateLimiter>, keys: seq<string>, readings: seq<nat>, before: seq<Snapshot>): set<nat>
    requires |limiters| == |before| == |keys| == |readings|
    reads limiters
  {
    set i: nat | i < |limiters| && !(Ready(limiters[i], keys[i], readings[i]) && Now(limiters[i]) == before[i])
  }

  /** The second phase charges every budget, and cannot be refused by any of them. */
  method ConsumeAll(
    limiters: seq<InProcessRateLimiter>, keys: seq<string>, readings: seq<nat>, ghost before: seq<Snapshot>)
    requires |limiters| == |before| == |keys| == |readings| && Distinct(limiters)
    requires Unready(limiters, keys, readings, before) == {}
    modifies limiters
    ensures forall i :: 0 <= i < |limiters| ==> Consumed(limiters[i], before[i], keys[i], readings[i])
  {
    for k := 0 to |limiters|
      invariant forall i :: 0 <= i < k ==> Consumed(limiters[i], before[i], keys[i], readings[i])
      invariant forall i :: k <= i < |limiters| ==> unchanged(limiters[i])
    {
      assert k !in old(Unready(limiters, keys, readings, before));
      ConsumeOne(limiters[k], keys[k], readings[k]);
    }
  }

  lemma CheckReadies(
    l: InProcessRateLimiter, before: Snapshot, key: string, now: nat, verdict: RateLimitResult, forgotten: set<string>,
    later: nat)
    requires Checked(l, before, key, now, verdict, forgotten) && verdict.allowed && now <= later
    ensures Ready(l, key, later)
  {
    assert Charges(l.history, key) == Charges(before.history, key);
  }

  /** First position whose budget denies, or the number of verdicts. */
  method FirstDenial(verdicts: seq<RateLimitResult>) returns (i: nat)
    ensures i <= |verdicts| && forall j :: 0 <= j < i ==> verdicts[j].allowed
    ensures i < |verdicts| ==> !verdicts[i].allowed && Decides(verdicts, i)
    ensures i == |verdicts| ==> AllAllow(verdicts)
  {
    i := 0;
    while i < |verdicts| && verdicts[i].allowed
      invariant i <= |verdicts| && forall j :: 0 <= j < i ==> verdicts[j].allowed
    {
      i := i + 1;
    }
  }

  /** The first of the budgets with the least remaining. */
  method Tightest(verdicts: seq<RateLimitResult>) returns (tightest: nat)
    requires |verdicts| >= 1 && AllAllow(verdicts)
    ensures Decides(verdicts, tightest)
  {
    tightest := 0;
    for k := 0 to |verdicts|
      invariant tightest < |verdicts|
      invariant forall j :: 0 <= j < k ==> verdicts[tightest].remaining <= verdicts[j].remaining
      invariant forall j :: 0 <= j < tightest ==> verdicts[tightest].remaining < verdicts[j].remaining
    {
      if verdicts[k].remaining < verdicts[tightest].remaining { tightest := k; }
    }
  }

  /** Clock readings for the checks of one request, and for the charges that may follow. */
  datatype Readings = Readings(clock: nat, checks: seq<nat>, charges: seq<nat>, until: nat) {
    ghost predicate For(n: nat) {
      && |checks| == |charges| == n && clock <= until
      && forall i :: 0 <= i < n ==> clock <= checks[i] <= charges[i] <= until
    }
  }

  ghost predicate AllValid(limiters: seq<InProcessRateLimiter>, clock: nat)
    reads limiters
  {
    limiters == [] || (
      var n := |limiters| - 1;
      AllValid(limiters[..n], clock) && limiters[n].Valid() && limiters[n].clock <= clock)
  }

  lemma {:induction false} AllValidMeans(limiters: seq<InProcessRateLimiter>, clock: nat)
    ensures AllValid(limiters, clock)
       <==> forall i :: 0 <= i < |limiters| ==> limiters[i].Valid() && limiters[i].clock <= clock
  {
    if limiters != [] { AllValidMeans(limiters[..|limiters| - 1], clock); }
  }

  /** Budgets of a request that are not settled; `charged` says whether they were to be charged. */
  ghost function Unsettled(
    limiters: seq<InProcessRateLimiter>, before: seq<Snapshot>, keys: seq<string>, at: Readings,
    verdicts: seq<RateLimitResult>, forgotten: seq<set<string>>, charged: bool): set<nat>
    requires |limiters| == |before| == |keys| == |verdicts| == |forgotten| && at.For(|limiters|)
    reads limiters
  {
    set i: nat | i < |limiters| &&
      !Settled(limiters[i], before[i], keys[i], at.checks[i], verdicts[i], forgotten[i],
        if charged then [at.charges[i]] else [])
  }

  ghost predicate AllSettled(
    limiters: seq<InProcessRateLimiter>, before: seq<Snapshot>, keys: seq<string>, at: Readings,
    verdicts: seq<RateLimitResult>, forgotten: seq<set<string>>, charged: bool)
    requires |limiters| == |before| == |keys| == |verdicts| == |forgotten| && at.For(|limiters|)
    reads limiters
  {
    Unsettled(limiters, before, keys, at, verdicts, forgotten, charged) == {}
  }

  lemma SettledAt(
    limiters: seq<InProcessRateLimiter>, before: seq<Snapshot>, keys: seq<string>, at: Readings,
    verdicts: seq<RateLimitResult>, forgotten: seq<set<string>>, charged: bool, i: nat)
    requires |limiters| == |before| == |keys| == |verdicts| == |forgotten| && at.For(|limiters|) && i < |limiters|
    requires AllSettled(limiters, before, keys, at, verdicts, forgotten, charged)
    ensures Settled(limiters[i], before[i], keys[i], at.checks[i], verdicts[i], forgotten[i],
              if charged then [at.charges[i]] else [])
  {
    assert i !in Unsettled(limiters, before, keys, at, verdicts, forgotten, charged);
  }

  ghost function Snapshots(limiters: seq<InProcessRateLimiter>): (before: seq<Snapshot>)
    reads limiters
    ensures |before| == |limiters| && forall i :: 0 <= i < |limiters| ==> before[i] == Now(limiters[i])
  {
    if limiters == [] then [] else Snapshots(limiters[..|limiters| - 1]) + [Now(limiters[|limiters| - 1])]
  }

  /** Budgets of a request that are not as their check leaves them. */
  ghost function Unchecked(
    limiters: seq<InProcessRateLimiter>, before: seq<Snapshot>, keys: seq<string>, at: Readings,
    verdicts: seq<RateLimitResult>, forgotten: seq<set<string>>): set<nat>
    requires |limiters| == |before| == |keys| == |verdicts| == |forgotten| && at.For(|limiters|)
    reads limiters
  {
    set i: nat | i < |limiters| &&
      !Checked(limiters[i], before[i], keys[i], at.checks[i], verdicts[i], forgotten[i])
  }

  ghost predicate AllChecked(
    limiters: seq<InProcessRateLimiter>, before: seq<Snapshot>, keys: seq<string>, at: Readings,
    verdicts: seq<RateLimitResult>, forgotten: seq<set<string>>)
    requires |limiters| == |before| == |keys| == |verdicts| == |forgotten| && at.For(|limiters|)
    reads limiters
  {
    Unchecked(limiters, before, keys, at, verdicts, forgotten) == {}
  }

  lemma CheckedAt(
    limiters: seq<InProcessRateLimiter>, before: seq<Snapshot>, keys: seq<string>, at: Readings,
    verdicts: seq<RateLimitResult>, forgotten: seq<set<string>>, i: nat)
    requires |limiters| == |before| == |keys| == |verdicts| == |forgotten| && at.For(|limiters|) && i < |limiters|
    requires AllChecked(limiters, before, keys, at, verdicts, forgotten)
    ensures Checked(limiters[i], before[i], keys[i], at.checks[i], verdicts[i], forgotten[i])
  {
    assert i !in Unchecked(limiters, before, keys, at, verdicts, forgotten);
  }

  lemma CheckedIsSettled(
    limiters: seq<InProcessRateLimiter>, before: seq<Snapshot>, keys: seq<string>, at: Readings,
    verdicts: seq<RateLimitResult>, forgotten: seq<set<string>>)
    requires |limiters| == |before| == |keys| == |verdicts| == |forgotten| && at.For(|limiters|)
    requires AllChecked(limiters, before, keys, at, verdicts, forgotten)
    ensures AllSettled(limiters, before, keys, at, verdicts, forgotten, false)
  {
    forall i | 0 <= i < |limiters|
      ensures Settled(limiters[i], before[i], keys[i], at.checks[i], verdicts[i], forgotten[i], [])
    {
      CheckedAt(limiters, before, keys, at, verdicts, forgotten, i);
    }
  }

  /** Check every budget; what it says is what holds when nothing is charged. */
  method CheckPhase(limiters: seq<InProcessRateLimiter>, keys: seq<string>, at: Readings)
    returns (verdicts: seq<RateLimitResult>, ghost before: seq<Snapshot>, ghost forgotten: seq<set<string>>)
    requires |limiters| == |keys| && at.For(|limiters|) && Distinct(limiters) && AllValid(limiters, at.clock)
    modifies limiters
    ensures |verdicts| == |forgotten| == |limiters| && before == old(Snapshots(limiters))
    ensures AllChecked(limiters, before, keys, at, verdicts, forgotten)
    ensures AllValid(limiters, at.until)
    ensures AllSettled(limiters, before, keys, at, verdicts, forgotten, false)
  {
    before := Snapshots(limiters);
    AllValidMeans(limiters, at.clock);
    verdicts, forgotten := CheckAll(limiters, keys, at.checks);
    AllValidMeans(limiters, at.until);
    CheckedIsSettled(limiters, before, keys, at, verdicts, forgotten);
  }

  lemma ConsumedIsSettled(
    limiters: seq<InProcessRateLimiter>, before: seq<Snapshot>, mid: seq<Snapshot>, keys: seq<string>, at: Readings,
    verdicts: seq<RateLimitResult>, forgotten: seq<set<string>>)
    requires |limiters| == |before| == |mid| == |keys| == |verdicts| == |forgotten| && at.For(|limiters|)
    requires forall i ::
               0 <= i < |limiters| ==>
                 Answered(limiters[i], before[i], keys[i], at.checks[i], verdicts[i], forgotten[i])
    requires forall i :: 0 <= i < |limiters| ==> Moved(before[i].history, mid[i].history, keys[i], forgotten[i], [])
    requires forall i :: 0 <= i < |limiters| ==> Consumed(limiters[i], mid[i], keys[i], at.charges[i])
    ensures AllSettled(limiters, before, keys, at, verdicts, forgotten, true)
  {
    forall i | 0 <= i < |limiters|
      ensures Settled(limiters[i], before[i], keys[i], at.checks[i], verdicts[i], forgotten[i], [at.charges[i]])
    {
      assert Answered(limiters[i], before[i], keys[i], at.checks[i], verdicts[i], forgotten[i]);
      assert Consumed(limiters[i], mid[i], keys[i], at.charges[i]);
      MovedTwice(before[i].history, mid[i].history, limiters[i].history, keys[i], forgotten[i], [at.charges[i]]);
    }
  }

  /** Charge every budget that has just been checked and allows. */
  method ChargePhase(
    limiters: seq<InProcessRateLimiter>, keys: seq<string>, at: Readings, verdicts: seq<RateLimitResult>,
    ghost before: seq<Snapshot>, ghost forgotten: seq<set<string>>)
    requires |limiters| == |before| == |keys| == |verdicts| == |forgotten| && at.For(|limiters|) && Distinct(limiters)
    requires AllAllow(verdicts)
    requires AllChecked(limiters, before, keys, at, verdicts, forgotten)
    modifies limiters
    ensures AllValid(limiters, at.until)
    ensures AllSettled(limiters, before, keys, at, verdicts, forgotten, true)
  {
    ghost var mid := Snapshots(limiters);
    forall i | 0 <= i < |limiters|
      ensures Ready(limiters[i], keys[i], at.charges[i])
      ensures Moved(before[i].history, mid[i].history, keys[i], forgotten[i], [])
    {
      CheckedAt(limiters, before, keys, at, verdicts, forgotten, i);
      CheckReadies(limiters[i], before[i], keys[i], at.checks[i], verdicts[i], forgotten[i], at.charges[i]);
    }
    forall i | 0 <= i < |limiters|
      ensures Answered(limiters[i], before[i], keys[i], at.checks[i], verdicts[i], forgotten[i])
    {
      CheckedAt(limiters, before, keys, at, verdicts, forgotten, i);
    }
    ConsumeAll(limiters, keys, at.charges, mid);
    AllValidMeans(limiters, at.until);
    ConsumedIsSettled(limiters, before, mid, keys, at, verdicts, forgotten);
  }

  /** The limiters outside `limiters` are sound. */
  ghost predicate OthersValid(all: set<InProcessRateLimiter>, limiters: seq<InProcessRateLimiter>, clock: nat)
    reads all
  {
    forall l :: l in all && l !in limiters ==> l.Valid() && l.clock <= clock
  }

  /** Check every budget, then charge all of them or none. */
  method DecideAndCharge(limiters: seq<InProcessRateLimiter>, keys: seq<string>, charge: bool, at: Readings)
    returns (verdicts: seq<RateLimitResult>, decider: nat, ghost forgotten: seq<set<string>>)
    requires |limiters| == |keys| >= 1 && at.For(|limiters|) && Distinct(limiters) && AllValid(limiters, at.clock)
    modifies limiters
    ensures |verdicts| == |forgotten| == |limiters| && Decides(verdicts, decider)
    ensures AllValid(limiters, at.until)
    ensures AllSettled(limiters, old(Snapshots(limiters)), keys, at, verdicts, forgotten, charge && AllAllow(verdicts))
  {
    ghost var before;
    verdicts, before, forgotten := CheckPhase(limiters, keys, at);
    decider := FirstDenial(verdicts);
    if decider == |limiters| {
      if charge {
        ChargePhase(limiters, keys, at, verdicts, before, forgotten);
      }
      decider := Tightest(verdicts);
    }
  }

  /** Both phases, with the limiters of other budgets standing by. */
  method DecideBeside(
    limiters: seq<InProcessRateLimiter>, keys: seq<string>, charge: bool, at: Readings,
    ghost all: set<InProcessRateLimiter>)
    returns (verdicts: seq<RateLimitResult>, decider: nat, ghost forgotten: seq<set<string>>)
    requires |limiters| == |keys| >= 1 && at.For(|limiters|) && Distinct(limiters)
    requires AllValid(limiters, at.clock) && OthersValid(all, limiters, at.clock)
    modifies limiters
    ensures |verdicts| == |forgotten| == |limiters| && Decides(verdicts, decider)
    ensures AllValid(limiters, at.until) && OthersValid(all, limiters, at.until)
    ensures AllSettled(limiters, old(Snapshots(limiters)), keys, at, verdicts, forgotten, charge && AllAllow(verdicts))
  {
    verdicts, decider, forgotten := DecideAndCharge(limiters, keys, charge, at);
    forall l | l in all && l !in limiters ensures l.Valid() && l.clock <= at.until {
      assert old(l.Valid()) && unchanged(l);
    }
  }

  ghost predicate Enforcing(l: InProcessRateLimiter, policy: Policy, maxIdentities: nat) {
    l.limit == policy.limit && l.windowMs == policy.windowMs && l.maxIdentities == maxIdentities
  }

  const DEFAULT_SWEEP_EVERY: nat := 256

  method NewLimiter(policy: Policy, maxIdentities: nat) returns (limiter: InProcessRateLimiter)
    requires PolicyOk(policy) && maxIdentities >= 1
    ensures fresh(limiter) && limiter.Valid() && limiter.clock == 0 && limiter.history == map[]
    ensures Enforcing(limiter, policy, maxIdentities)
  {
    limiter := new InProcessRateLimiter(policy.limit, policy.windowMs, maxIdentities, DEFAULT_SWEEP_EVERY);
  }

  /** One new limiter for the base budget and for every dimension of the order. */
  method NewLimiters(policies: Policies, order: seq<Dimension>, maxIdentities: nat)
    returns (windows: map<Budget, InProcessRateLimiter>)
    requires policies.Ok() && maxIdentities >= 1 && forall d :: d in order ==> d in policies.dimensions
    ensures forall b :: b in windows <==> b.Base? || b.dimension in order
    ensures forall b, c :: b in windows && c in windows && b != c ==> windows[b] != windows[c]
    ensures forall b ::
              b in windows ==>
                fresh(windows[b]) && windows[b].Valid() && windows[b].clock == 0 && windows[b].history == map[]
    ensures forall b :: b in windows ==> policies.Has(b) && Enforcing(windows[b], policies.For(b), maxIdentities)
  {
    var base := NewLimiter(policies.base, maxIdentities);
    windows := map[Base := base];
    for k := 0 to |order|
      invariant forall b :: b in windows <==> b.Base? || b.dimension in order[..k]
      invariant forall b, c :: b in windows && c in windows && b != c ==> windows[b] != windows[c]
      invariant forall b ::
                  b in windows ==>
                    fresh(windows[b]) && windows[b].Valid() && windows[b].clock == 0 && windows[b].history == map[]
      invariant forall b :: b in windows ==> policies.Has(b) && Enforcing(windows[b], policies.For(b), maxIdentities)
    {
      var limiter := NewLimiter(policies.dimensions[order[k]], maxIdentities);
      assert order[..k + 1] == order[..k] + [order[k]];
      windows := windows[Of(order[k]) := limiter];
    }
    assert order[..|order|] == order;
  }

  /** What a budget's own limiter calls an identity. */
  function LocalKey(budget: Budget, value: string): string {
    match budget
    case Base => value
    case Of(d) => Name(d) + "=" + value
  }

  function Keys(plan: seq<Entry>): (keys: seq<string>)
    ensures |keys| == |plan|
  {
    if plan == [] then [] else Keys(plan[..|plan| - 1]) + [LocalKey(plan[|plan| - 1].budget, plan[|plan| - 1].value)]
  }

  class QuotaRateLimiter {
    const policies: Policies
    const order: seq<Dimension>
    const windows: map<Budget, InProcessRateLimiter>
    const maxIdentities: nat

    ghost predicate Wired() {
      && OrderOf(order, policies)
      && (forall b :: b in windows <==> policies.Has(b))
      && (forall b, c :: b in windows && c in windows && b != c ==> windows[b] != windows[c])
      && forall b :: b in windows ==> Enforcing(windows[b], policies.For(b), maxIdentities)
    }

    ghost function Unsound(clock: nat): set<InProcessRateLimiter>
      reads windows.Values
    {
      set l | l in windows.Values && !(l.Valid() && l.clock <= clock)
    }

    ghost predicate Valid(clock: nat)
      reads windows.Values
    {
      Wired() && Unsound(clock) == {}
    }

    /** Every charge of `key` against `budget` since it was last forgotten. */
    ghost function ChargesOf(budget: Budget, key: string): seq<nat>
      requires budget in windows
      reads windows[budget]
    {
      Charges(windows[budget].history, key)
    }

    constructor (policies: Policies, maxIdentities: nat)
      requires policies.Ok() && maxIdentities >= 1
      ensures Valid(0) && fresh(windows.Values) && this.policies == policies
      ensures this.order == Configured(DIMENSIONS, policies.dimensions) && this.maxIdentities == maxIdentities
      ensures forall b, key :: b in windows ==> ChargesOf(b, key) == []
    {
      var order := Configured(DIMENSIONS, policies.dimensions);
      OrderIsExact(policies.dimensions);
      var windows := NewLimiters(policies, order, maxIdentities);
      this.policies, this.order, this.windows, this.maxIdentities := policies, order, windows, maxIdentities;
    }

    /** What one request is charged against. */
    function Plan(identity: Identity): seq<Entry>
      requires Wired()
    {
      PlanOf(order, policies, identity)
    }

    /** A request's budgets with their limiters; no limiter serves two of them. */
    ghost predicate Serves(limiters: seq<InProcessRateLimiter>, plan: seq<Entry>) {
      && |limiters| == |plan| && Distinct(limiters)
      && (forall i :: 0 <= i < |plan| ==> plan[i].budget in windows && limiters[i] == windows[plan[i].budget])
      && forall b :: b in windows && !Plans(plan, b) ==> windows[b] !in limiters
    }

    /** Every planned budget has a limiter. */
    ghost predicate Served(plan: seq<Entry>) {
      plan == [] || (Served(plan[..|plan| - 1]) && plan[|plan| - 1].budget in windows)
    }

    /** The limiters that serve a plan, in its order. */
    function LimitersFor(plan: seq<Entry>): seq<InProcessRateLimiter>
      requires Served(plan)
    {
      if plan == [] then [] else LimitersFor(plan[..|plan| - 1]) + [windows[plan[|plan| - 1].budget]]
    }

    lemma {:induction false} ServedMeans(plan: seq<Entry>)
      requires forall i :: 0 <= i < |plan| ==> plan[i].budget in windows
      ensures Served(plan) && |LimitersFor(plan)| == |plan|
      ensures forall i :: 0 <= i < |plan| ==> LimitersFor(plan)[i] == windows[plan[i].budget]
    {
      if plan != [] { ServedMeans(plan[..|plan| - 1]); }
    }

    lemma LimitersServe(identity: Identity)
      requires Wired()
      ensures Served(Plan(identity)) && Serves(LimitersFor(Plan(identity)), Plan(identity)) && |Plan(identity)| >= 1
    {
      PlanIsExact(order, policies, identity);
      var plan := Plan(identity);
      assert forall i :: 0 <= i < |plan| ==> EntryOf(plan[i], policies, identity) && plan[i].budget in windows;
      ServedMeans(plan);
      var limiters := LimitersFor(plan);
      forall b | b in windows && !Plans(plan, b) ensures windows[b] !in limiters {
        forall j | 0 <= j < |plan| ensures limiters[j] != windows[b] {
          assert plan[j].budget != b;
        }
      }
    }

    lemma SplitValid(limiters: seq<InProcessRateLimiter>, plan: seq<Entry>, clock: nat)
      requires Wired() && Serves(limiters, plan)
      ensures Valid(clock) <==> AllValid(limiters, clock) && OthersValid(windows.Values, limiters, clock)
    {
      AllValidMeans(limiters, clock);
      assert Unsound(clock) == {} <==> forall l :: l in windows.Values ==> l.Valid() && l.clock <= clock by {
        if Unsound(clock) == {} {
          forall l | l in windows.Values ensures l.Valid() && l.clock <= clock { assert l !in Unsound(clock); }
        }
      }
    }

    /** The decision and the charges for one plan, with the limiters that serve it. */
    method EvaluatePlan(plan: seq<Entry>, planned: seq<InProcessRateLimiter>, charge: bool, at: Readings)
      returns (result: QuotaResult, ghost verdicts: seq<RateLimitResult>, ghost decider: nat,
        ghost forgotten: seq<set<string>>)
      requires Valid(at.clock) && |plan| >= 1 && Serves(planned, plan) && at.For(|plan|)
      modifies planned
      ensures Valid(at.until) && |verdicts| == |forgotten| == |planned|
      ensures Decides(verdicts, decider)
      ensures result == Report(plan[decider], verdicts[decider], charge && AllAllow(verdicts))
      ensures AllSettled(planned, old(Snapshots(planned)), Keys(plan), at, verdicts, forgotten,
                charge && AllAllow(verdicts))
    {
      SplitValid(planned, plan, at.clock);
      var answers, i, victims := DecideBeside(planned, Keys(plan), charge, at, windows.Values);
      verdicts, decider, forgotten := answers, i, victims;
      SplitValid(planned, plan, at.until);
      result := Report(plan[i], answers[i], charge && answers[i].allowed);
    }

    /**
     * Decide-and-charge, one request at a time. The first denial in declared order decides, or else the
     * tightest budget; every planned budget is charged once when all allow, and none otherwise. The
     * limiters of other budgets are not touched.
     */
    method EvaluateLocked(identity: Identity, charge: bool, at: Readings)
      returns (result: QuotaResult, ghost plan: seq<Entry>, ghost verdicts: seq<RateLimitResult>, ghost decider: nat,
               ghost limiters: seq<InProcessRateLimiter>, ghost forgotten: seq<set<string>>)
      requires Valid(at.clock) && at.For(|Plan(identity)|)
      modifies windows.Values
      ensures Valid(at.until) && plan == Plan(identity) && Served(plan) && limiters == LimitersFor(plan)
      ensures |verdicts| == |forgotten| == |limiters| == |plan| && Decides(verdicts, decider)
      ensures result == Report(plan[decider], verdicts[decider], charge && AllAllow(verdicts))
      ensures AllSettled(limiters, old(Snapshots(limiters)), Keys(plan), at, verdicts, forgotten,
                charge && AllAllow(verdicts))
      ensures forall l :: l in windows.Values && l !in limiters ==> unchanged(l)
    {
      LimitersServe(identity);
      var entries := Plan(identity);
      var planned := LimitersFor(entries);
      plan, limiters := entries, planned;
      result, verdicts, decider, forgotten := EvaluatePlan(entries, planned, charge, at);
    }
  }

  lemma {:induction false} KeysAt(plan: seq<Entry>, i: nat)
    requires i < |plan|
    ensures Keys(plan)[i] == LocalKey(plan[i].budget, plan[i].value)
  {
    if i < |plan| - 1 { KeysAt(plan[..|plan| - 1], i); }
  }
}
