/** What a request is charged against, and which of its budgets decides the answer. */
module QuotaPlan {
  import opened RateLimiter

  datatype Dimension = Global | Organization | Project | User | Agent | ApiKey | Ip | Endpoint | Provider

  /** The declared order, which is the order of precedence. */
  const DIMENSIONS: seq<Dimension> := [Global, Organization, Project, User, Agent, ApiKey, Ip, Endpoint, Provider]

  function Rank(d: Dimension): nat {
    match d
    case Global => 0
    case Organization => 1
    case Project => 2
    case User => 3
    case Agent => 4
    case ApiKey => 5
    case Ip => 6
    case Endpoint => 7
    case Provider => 8
  }

  datatype Policy = Policy(limit: nat, windowMs: nat)

  predicate PolicyOk(policy: Policy) { policy.limit >= 1 && policy.windowMs >= 1 }

  /** A dimension's budget, or the base budget that every request is charged. */
  datatype Budget = Of(dimension: Dimension) | Base

  datatype Policies = Policies(base: Policy, dimensions: map<Dimension, Policy>) {
    ghost predicate Ok() {
      PolicyOk(base) && forall d :: d in dimensions ==> PolicyOk(dimensions[d])
    }

    predicate Has(budget: Budget) { budget.Base? || budget.dimension in dimensions }

    function For(budget: Budget): Policy requires Has(budget) {
      if budget.Base? then base else dimensions[budget.dimension]
    }
  }

  datatype Identity = Identity(dimensions: map<Dimension, string>, key: string)

  datatype Entry = Entry(budget: Budget, value: string, policy: Policy)

  datatype QuotaResult = QuotaResult(verdict: RateLimitResult, dimension: Dimension)

  function Name(d: Dimension): string {
    match d
    case Global => "global"
    case Organization => "organization"
    case Project => "project"
    case User => "user"
    case Agent => "agent"
    case ApiKey => "apikey"
    case Ip => "ip"
    case Endpoint => "endpoint"
    case Provider => "provider"
  }

  /** The configured dimensions, in declared order. */
  function Configured(declared: seq<Dimension>, dimensions: map<Dimension, Policy>): seq<Dimension> {
    if declared == [] then []
    else
      var rest, d := Configured(declared[..|declared| - 1], dimensions), declared[|declared| - 1];
      if d in dimensions then rest + [d] else rest
  }

  /** The budgets of the dimensions that the request carries. */
  function Carried(order: seq<Dimension>, policies: Policies, identity: Identity): seq<Entry>
    requires forall i :: 0 <= i < |order| ==> order[i] in policies.dimensions
  {
    if order == [] then []
    else
      var rest, d := Carried(order[..|order| - 1], policies, identity), order[|order| - 1];
      if d in identity.dimensions
      then rest + [Entry(Of(d), identity.dimensions[d], policies.dimensions[d])]
      else rest
  }

  ghost predicate Declared(order: seq<Dimension>) {
    forall i, j :: 0 <= i < j < |order| ==> Rank(order[i]) < Rank(order[j])
  }

  lemma {:induction false} ConfiguredIsFilter(declared: seq<Dimension>, dimensions: map<Dimension, Policy>)
    ensures forall d :: d in Configured(declared, dimensions) <==> d in declared && d in dimensions
  {
    if declared != [] {
      ConfiguredIsFilter(declared[..|declared| - 1], dimensions);
      assert declared == declared[..|declared| - 1] + [declared[|declared| - 1]];
    }
  }

  lemma {:induction false} ConfiguredInOrder(declared: seq<Dimension>, dimensions: map<Dimension, Policy>)
    requires Declared(declared)
    ensures Declared(Configured(declared, dimensions))
  {
    if declared != [] {
      var rest := declared[..|declared| - 1];
      ConfiguredInOrder(rest, dimensions);
      ConfiguredIsFilter(rest, dimensions);
      forall d | d in rest ensures Rank(d) < Rank(declared[|declared| - 1]) {
        var i :| 0 <= i < |rest| && rest[i] == d;
        assert declared[i] == d;
      }
    }
  }

  /** What the constructor keeps: every configured dimension, once, in declared order. */
  lemma OrderIsExact(dimensions: map<Dimension, Policy>)
    ensures Declared(Configured(DIMENSIONS, dimensions))
    ensures forall d :: d in Configured(DIMENSIONS, dimensions) <==> d in dimensions
  {
    ConfiguredInOrder(DIMENSIONS, dimensions);
    ConfiguredIsFilter(DIMENSIONS, dimensions);
    forall d: Dimension ensures d in DIMENSIONS { assert DIMENSIONS[Rank(d)] == d; }
  }

  ghost predicate EntryOf(entry: Entry, policies: Policies, identity: Identity) {
    && policies.Has(entry.budget) && entry.policy == policies.For(entry.budget)
    && match entry.budget
       case Base => entry.value == identity.key
       case Of(d) => d in identity.dimensions && entry.value == identity.dimensions[d]
  }

  /** Entries of dimensions from `order`, by rank. */
  ghost predicate Ranked(plan: seq<Entry>, order: seq<Dimension>) {
    && (forall i :: 0 <= i < |plan| ==> plan[i].budget.Of? && plan[i].budget.dimension in order)
    && forall i, j :: 0 <= i < j < |plan| ==> Rank(plan[i].budget.dimension) < Rank(plan[j].budget.dimension)
  }

  ghost predicate EntriesOf(plan: seq<Entry>, policies: Policies, identity: Identity) {
    forall i :: 0 <= i < |plan| ==> EntryOf(plan[i], policies, identity)
  }

  ghost predicate Plans(plan: seq<Entry>, budget: Budget) {
    exists i :: 0 <= i < |plan| && plan[i].budget == budget
  }

  lemma RankedGrows(plan: seq<Entry>, rest: seq<Dimension>, last: Dimension, entry: Entry)
    requires Ranked(plan, rest) && entry.budget == Of(last) && forall d :: d in rest ==> Rank(d) < Rank(last)
    ensures Ranked(plan, rest + [last]) && Ranked(plan + [entry], rest + [last])
  {
    forall i | 0 <= i < |plan| ensures plan[i].budget.dimension in rest + [last] {
      assert plan[i].budget.dimension in rest;
    }
  }

  lemma {:induction false} CarriedInOrder(order: seq<Dimension>, policies: Policies, identity: Identity)
    requires Declared(order) && forall i :: 0 <= i < |order| ==> order[i] in policies.dimensions
    ensures Ranked(Carried(order, policies, identity), order)
  {
    if order != [] {
      var rest, last := order[..|order| - 1], order[|order| - 1];
      CarriedInOrder(rest, policies, identity);
      assert order == rest + [last];
      forall d | d in rest ensures Rank(d) < Rank(last) {
        var i :| 0 <= i < |rest| && rest[i] == d;
        assert order[i] == d;
      }
      RankedGrows(Carried(rest, policies, identity), rest, last,
        Entry(Of(last), if last in identity.dimensions then identity.dimensions[last] else "",
          policies.dimensions[last]));
    }
  }

  lemma {:induction false} CarriedAreEntries(order: seq<Dimension>, policies: Policies, identity: Identity)
    requires forall i :: 0 <= i < |order| ==> order[i] in policies.dimensions
    ensures EntriesOf(Carried(order, policies, identity), policies, identity)
  {
    if order != [] {
      CarriedAreEntries(order[..|order| - 1], policies, identity);
    }
  }

  lemma {:induction false} CarriedIsComplete(
    order: seq<Dimension>, policies: Policies, identity: Identity, d: Dimension)
    requires forall i :: 0 <= i < |order| ==> order[i] in policies.dimensions
    requires d in order && d in identity.dimensions
    ensures Plans(Carried(order, policies, identity), Of(d))
  {
    var rest, last := order[..|order| - 1], order[|order| - 1];
    var before, plan := Carried(rest, policies, identity), Carried(order, policies, identity);
    if d == last {
      assert plan[|plan| - 1].budget == Of(d);
    } else {
      assert order == rest + [last];
      CarriedIsComplete(rest, policies, identity, d);
      var i :| 0 <= i < |before| && before[i].budget == Of(d);
      assert plan[i] == before[i];
    }
  }

  /** Everything one request is charged: the carried dimensions in order, the base budget last. */
  function PlanOf(order: seq<Dimension>, policies: Policies, identity: Identity): (plan: seq<Entry>)
    requires forall i :: 0 <= i < |order| ==> order[i] in policies.dimensions
  {
    Carried(order, policies, identity) + [Entry(Base, identity.key, policies.base)]
  }

  ghost predicate OrderOf(order: seq<Dimension>, policies: Policies) {
    && policies.Ok() && Declared(order)
    && (forall i :: 0 <= i < |order| ==> order[i] in policies.dimensions)
    && forall d :: d in policies.dimensions ==> d in order
  }

  ghost predicate NoBudgetTwice(plan: seq<Entry>) {
    forall i, j :: 0 <= i < j < |plan| ==> plan[i].budget != plan[j].budget
  }

  ghost predicate PoliciesOk(plan: seq<Entry>) {
    forall i :: 0 <= i < |plan| ==> PolicyOk(plan[i].policy)
  }

  lemma AppendBase(carried: seq<Entry>, base: Entry, policies: Policies, identity: Identity)
    requires EntriesOf(carried, policies, identity) && EntryOf(base, policies, identity)
    ensures EntriesOf(carried + [base], policies, identity) && (carried + [base])[..|carried|] == carried
  {
  }

  lemma PlannedEntries(order: seq<Dimension>, policies: Policies, identity: Identity)
    requires OrderOf(order, policies)
    ensures var plan := PlanOf(order, policies, identity);
            |plan| >= 1 && plan[|plan| - 1].budget == Base && Ranked(plan[..|plan| - 1], order)
    ensures EntriesOf(PlanOf(order, policies, identity), policies, identity)
  {
    CarriedInOrder(order, policies, identity);
    CarriedAreEntries(order, policies, identity);
    AppendBase(Carried(order, policies, identity), Entry(Base, identity.key, policies.base), policies, identity);
  }

  lemma RankedIsDistinct(plan: seq<Entry>, order: seq<Dimension>)
    requires |plan| >= 1 && plan[|plan| - 1].budget == Base && Ranked(plan[..|plan| - 1], order)
    ensures NoBudgetTwice(plan)
  {
    var carried := plan[..|plan| - 1];
    forall i, j | 0 <= i < j < |plan| ensures plan[i].budget != plan[j].budget {
      assert plan[i] == carried[i];
      if j < |carried| { assert plan[j] == carried[j]; }
    }
  }

  lemma PlannedPolicies(plan: seq<Entry>, policies: Policies, identity: Identity)
    requires policies.Ok() && EntriesOf(plan, policies, identity)
    ensures PoliciesOk(plan)
  {
    forall i | 0 <= i < |plan| ensures PolicyOk(plan[i].policy) { assert EntryOf(plan[i], policies, identity); }
  }

  /** A dimension is planned exactly when it is configured and the request carries it. */
  lemma PlansExactly(order: seq<Dimension>, policies: Policies, identity: Identity, d: Dimension)
    requires OrderOf(order, policies)
    ensures Plans(PlanOf(order, policies, identity), Of(d)) <==> d in policies.dimensions && d in identity.dimensions
  {
    PlannedEntries(order, policies, identity);
    var carried, plan := Carried(order, policies, identity), PlanOf(order, policies, identity);
    if d in policies.dimensions && d in identity.dimensions {
      CarriedIsComplete(order, policies, identity, d);
      var i :| 0 <= i < |carried| && carried[i].budget == Of(d);
      assert plan[i] == carried[i];
    }
    if Plans(plan, Of(d)) {
      var i :| 0 <= i < |plan| && plan[i].budget == Of(d);
      assert EntryOf(plan[i], policies, identity);
    }
  }

  /** No budget is planned twice, and the ones planned are exactly the base, last, and what the request carries. */
  lemma PlanIsExact(order: seq<Dimension>, policies: Policies, identity: Identity)
    requires OrderOf(order, policies)
    ensures var plan := PlanOf(order, policies, identity);
            && |plan| >= 1 && plan[|plan| - 1].budget == Base && Ranked(plan[..|plan| - 1], order)
            && EntriesOf(plan, policies, identity) && NoBudgetTwice(plan) && PoliciesOk(plan)
    ensures forall d ::
              Plans(PlanOf(order, policies, identity), Of(d)) <==> d in policies.dimensions && d in identity.dimensions
  {
    var plan := PlanOf(order, policies, identity);
    PlannedEntries(order, policies, identity);
    RankedIsDistinct(plan, order);
    PlannedPolicies(plan, policies, identity);
    forall d ensures Plans(plan, Of(d)) <==> d in policies.dimensions && d in identity.dimensions {
      PlansExactly(order, policies, identity, d);
    }
  }

  ghost predicate AllAllow(verdicts: seq<RateLimitResult>) {
    forall j :: 0 <= j < |verdicts| ==> verdicts[j].allowed
  }

  /**
   * Position `i` decides: the first budget that denies, or, when none does, the first of the tightest.
   */
  ghost predicate Decides(verdicts: seq<RateLimitResult>, i: nat) {
    && i < |verdicts|
    && if AllAllow(verdicts) then
         && (forall j :: 0 <= j < |verdicts| ==> verdicts[i].remaining <= verdicts[j].remaining)
         && (forall j :: 0 <= j < i ==> verdicts[i].remaining < verdicts[j].remaining)
       else
         !verdicts[i].allowed && forall j :: 0 <= j < i ==> verdicts[j].allowed
  }

  /** One budget decides, whatever order the verdicts were computed in. */
  lemma DeciderIsUnique(verdicts: seq<RateLimitResult>, i: nat, j: nat)
    requires Decides(verdicts, i) && Decides(verdicts, j)
    ensures i == j
  {
    if AllAllow(verdicts) {
      assert verdicts[i].remaining <= verdicts[j].remaining <= verdicts[i].remaining;
    } else {
      assert !verdicts[i].allowed && !verdicts[j].allowed;
    }
  }

  function Reported(budget: Budget): Dimension { if budget.Base? then Global else budget.dimension }

  /** The answer for a decided request; an allowed charge has lowered the budget by one. */
  function Report(entry: Entry, verdict: RateLimitResult, charged: bool): QuotaResult {
    QuotaResult(
      verdict.(remaining := if charged && verdict.remaining > 0 then verdict.remaining - 1 else verdict.remaining),
      Reported(entry.budget))
  }

  /** The dimensions in the order of precedence, by which the first one that denies decides. */
  lemma DeclaredOrder()
    ensures Rank(Global) < Rank(Organization) < Rank(Project) < Rank(User) < Rank(Agent)
    ensures Rank(Agent) < Rank(ApiKey) < Rank(Ip) < Rank(Endpoint) < Rank(Provider)
    ensures |DIMENSIONS| == 9 && Declared(DIMENSIONS)
  {
  }

  /**
   * What is reported of the deciding budget: its own answer under its dimension, the base budget as the
   * global one, and one less left once the request itself is charged.
   */
  lemma ReportMeans(entry: Entry, verdict: RateLimitResult, charged: bool)
    ensures var result := Report(entry, verdict, charged);
            && (entry.budget == Base ==> result.dimension == Global)
            && (forall d :: entry.budget == Of(d) ==> result.dimension == d)
            && result.verdict.allowed == verdict.allowed && result.verdict.retryAfterMs == verdict.retryAfterMs
            && result.verdict.limit == verdict.limit && result.verdict.windowMs == verdict.windowMs
            && (!charged ==> result.verdict.remaining == verdict.remaining)
            && (charged && verdict.remaining >= 1 ==> result.verdict.remaining + 1 == verdict.remaining)
            && (charged && verdict.remaining == 0 ==> result.verdict.remaining == 0)
  {
  }
}
