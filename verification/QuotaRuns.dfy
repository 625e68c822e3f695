/** Whole runs of both quotas, from new stores. */
module QuotaRuns {
  import opened RateLimiter
  import opened QuotaPlan
  import opened QuotaAgreement
  import Quota
  import Redis = RedisQuota

  datatype Request = Request(identity: Identity, at: nat)

  ghost predicate InOrder(requests: seq<Request>) {
    forall i, j :: 0 <= i < j < |requests| ==> requests[i].at <= requests[j].at
  }

  predicate Carries(identity: Identity, budget: Budget) { budget.Base? || budget.dimension in identity.dimensions }

  /** What an identity is called by the limiter of a budget. */
  function NameOf(identity: Identity, budget: Budget): string
    requires Carries(identity, budget)
  {
    Quota.LocalKey(budget, if budget.Base? then identity.key else identity.dimensions[budget.dimension])
  }

  /** Whom the first `n` requests name for a budget. */
  function Names(requests: seq<Request>, n: nat, budget: Budget): set<string>
    requires n <= |requests|
  {
    if n == 0 then {}
    else
      var last := requests[n - 1].identity;
      Names(requests, n - 1, budget) + if Carries(last, budget) then {NameOf(last, budget)} else {}
  }

  lemma {:induction false} NamesGrow(requests: seq<Request>, m: nat, n: nat, budget: Budget)
    requires m <= n <= |requests|
    ensures Names(requests, m, budget) <= Names(requests, n, budget)
  {
    if m < n { NamesGrow(requests, m, n - 1, budget); }
  }

  /** Only identities that were named have charges. */
  ghost predicate OnlyNamed(book: Book, requests: seq<Request>, n: nat)
    requires n <= |requests|
  {
    forall b, key :: b in book && Charges(book[b].history, key) != [] ==> key in Names(requests, n, b)
  }

  lemma {:induction false} Smaller(part: set<string>, whole: set<string>)
    requires part <= whole
    ensures |part| <= |whole|
  {
    if part != {} {
      var x :| x in part;
      Smaller(part - {x}, whole - {x});
    }
  }

  /** A limiter with as many places as identities named never has to forget one of them. */
  lemma FewIdentitiesFit(l: InProcessRateLimiter, key: string, charged: set<string>, all: set<string>, now: nat)
    requires l.Valid() && charged + {key} <= all && |all| <= l.maxIdentities
    requires forall k :: Charges(l.history, k) != [] ==> k in charged
    ensures !CeilingForgets(l.windows, key, l.maxIdentities, l.windowMs, now)
  {
    if CeilingForgets(l.windows, key, l.maxIdentities, l.windowMs, now) {
      forall k | k in l.windows ensures k in charged {
        AgreesMeans(Charges(l.history, k), Kept(l.windows, k), l.windowMs, l.clock);
      }
      Smaller(l.windows.Keys + {key}, all);
      assert false;
    }
  }

  lemma RunHasRoom(q: Quota.QuotaRateLimiter, requests: seq<Request>, n: nat, clock: nat)
    requires q.Valid(clock) && n < |requests| && OnlyNamed(BookOf(q), requests, n)
    requires forall b :: q.policies.Has(b) ==> |Names(requests, |requests|, b)| <= q.maxIdentities
    ensures HasRoom(BookOf(q), q.Plan(requests[n].identity), requests[n].at, q.maxIdentities)
  {
    var identity := requests[n].identity;
    var plan := q.Plan(identity);
    PlannedEntries(q.order, q.policies, identity);
    forall i | 0 <= i < |plan| && plan[i].budget in BookOf(q)
      ensures !CeilingForgets(BookOf(q)[plan[i].budget].windows, Quota.LocalKey(plan[i].budget, plan[i].value),
                q.maxIdentities,
                plan[i].policy.windowMs, requests[n].at)
    {
      var b := plan[i].budget;
      assert EntryOf(plan[i], q.policies, identity);
      assert q.windows[b] !in q.Unsound(clock);
      NamesGrow(requests, n + 1, |requests|, b);
      FewIdentitiesFit(q.windows[b], NameOf(identity, b), Names(requests, n, b), Names(requests, |requests|, b),
        requests[n].at);
    }
  }

  /** Serving a request charges nobody who was not named. */
  lemma StillOnlyNamed(
    before: Book, after: Book, order: seq<Dimension>, policies: Policies, requests: seq<Request>, n: nat,
    forgotten: seq<set<string>>,
    charged: bool, maxIdentities: nat)
    requires OrderOf(order, policies) && n < |requests| && OnlyNamed(before, requests, n)
    requires BookMoved(before, after, PlanOf(order, policies, requests[n].identity), requests[n].at, forgotten, charged,
               maxIdentities)
    ensures OnlyNamed(after, requests, n + 1)
  {
    var identity, now := requests[n].identity, requests[n].at;
    var plan := PlanOf(order, policies, identity);
    PlannedEntries(order, policies, identity);
    forall b, key | b in after && Charges(after[b].history, key) != [] ensures key in Names(requests, n + 1, b) {
      if Plans(plan, b) {
        var i :| 0 <= i < |plan| && plan[i].budget == b;
        assert EntryOf(plan[i], policies, identity);
        assert MovedEntry(before[b], after[b], plan[i], now, forgotten[i], charged, maxIdentities);
      }
    }
  }

  /** All that the two answers may differ in is the label of an allowed one. */
  predicate SameDecision(local: QuotaResult, shared: QuotaResult) {
    && local.verdict.allowed == shared.verdict.allowed && local.verdict.remaining == shared.verdict.remaining
    && local.verdict.retryAfterMs == shared.verdict.retryAfterMs && (local == shared || local.verdict.allowed)
  }

  /** One request for which there is room. */
  method ServeOne(q: Quota.QuotaRateLimiter, r: Redis.RedisQuotaRateLimiter, request: Request, clock: nat)
    returns (local: QuotaResult, shared: QuotaResult, ghost forgotten: seq<set<string>>)
    requires q.Valid(clock) && r.Valid(clock) && Corresponds(q, r) && clock <= request.at
    requires HasRoom(BookOf(q), q.Plan(request.identity), request.at, q.maxIdentities)
    modifies q.windows.Values, r`sequence, r.server
    ensures q.Valid(request.at) && r.Valid(request.at) && Corresponds(q, r)
    ensures SameDecision(local, shared)
    ensures BookMoved(old(BookOf(q)), BookOf(q), q.Plan(request.identity), request.at, forgotten, local.verdict.allowed,
              q.maxIdentities)
  {
    ghost var decider;
    local, shared, decider, forgotten := Lockstep(q, r, request.identity, clock, request.at);
  }

  /** One request of a run. */
  method ServeNext(
    q: Quota.QuotaRateLimiter, r: Redis.RedisQuotaRateLimiter, requests: seq<Request>, n: nat, clock: nat)
    returns (local: QuotaResult, shared: QuotaResult)
    requires q.Valid(clock) && r.Valid(clock) && Corresponds(q, r) && n < |requests| && clock <= requests[n].at
    requires OnlyNamed(BookOf(q), requests, n)
    requires forall b :: q.policies.Has(b) ==> |Names(requests, |requests|, b)| <= q.maxIdentities
    modifies q.windows.Values, r`sequence, r.server
    ensures q.Valid(requests[n].at) && r.Valid(requests[n].at) && Corresponds(q, r)
    ensures OnlyNamed(BookOf(q), requests, n + 1)
    ensures SameDecision(local, shared)
  {
    RunHasRoom(q, requests, n, clock);
    ghost var before := BookOf(q);
    ghost var forgotten;
    local, shared, forgotten := ServeOne(q, r, requests[n], clock);
    StillOnlyNamed(before, BookOf(q), q.order, q.policies, requests, n, forgotten, local.verdict.allowed,
      q.maxIdentities);
  }

  /** A whole run, from its first request on. */
  method ServeRun(q: Quota.QuotaRateLimiter, r: Redis.RedisQuotaRateLimiter, requests: seq<Request>)
    returns (locals: seq<QuotaResult>, shareds: seq<QuotaResult>)
    requires q.Valid(0) && r.Valid(0) && Corresponds(q, r) && InOrder(requests) && OnlyNamed(BookOf(q), requests, 0)
    requires forall b :: q.policies.Has(b) ==> |Names(requests, |requests|, b)| <= q.maxIdentities
    modifies q.windows.Values, r`sequence, r.server
    ensures |locals| == |shareds| == |requests|
    ensures forall i :: 0 <= i < |requests| ==> SameDecision(locals[i], shareds[i])
  {
    var clock: nat := 0;
    locals, shareds := [], [];
    for n := 0 to |requests|
      invariant q.Valid(clock) && r.Valid(clock) && Corresponds(q, r) && OnlyNamed(BookOf(q), requests, n)
      invariant forall i :: n <= i < |requests| ==> clock <= requests[i].at
      invariant |locals| == |shareds| == n && forall i :: 0 <= i < n ==> SameDecision(locals[i], shareds[i])
    {
      var local, shared := ServeNext(q, r, requests, n, clock);
      locals, shareds, clock := locals + [local], shareds + [shared], requests[n].at;
    }
  }

  /**
   * Any run of requests, served by a new in-process quota and by a new shared one: as long as the run
   * names no more identities for a budget than a limiter may track, both decide every request alike.
   */
  method ServeBoth(policies: Policies, maxIdentities: nat, prefix: string, tag: nat, requests: seq<Request>)
    returns (locals: seq<QuotaResult>, shareds: seq<QuotaResult>)
    requires policies.Ok() && maxIdentities >= 1 && InOrder(requests)
    requires forall b :: policies.Has(b) ==> |Names(requests, |requests|, b)| <= maxIdentities
    ensures |locals| == |shareds| == |requests|
    ensures forall i :: 0 <= i < |requests| ==> SameDecision(locals[i], shareds[i])
  {
    var q, r := StartBoth(policies, maxIdentities, prefix, tag);
    locals, shareds := ServeRun(q, r, requests);
  }
}
