/** Several instances of the shared quota on one store, interleaved in any way. */
module QuotaFleet {
  import opened RateLimiter
  import opened QuotaPlan
  import opened RedisServer
  import opened RedisQuota

  /** Same store and same configuration; no two instances have the same tag. */
  ghost predicate Fleet(
    instances: seq<RedisQuotaRateLimiter>, server: RedisServer, policies: Policies, prefix: string)
  {
    && (forall i :: 0 <= i < |instances| ==>
          instances[i].server == server && instances[i].policies == policies && instances[i].prefix == prefix
          && instances[i].order == Configured(DIMENSIONS, policies.dimensions))
    && forall i, j :: 0 <= i < j < |instances| ==> instances[i].instanceTag != instances[j].instanceTag
  }

  /** The instances that are not sound. */
  ghost function Unsound(instances: seq<RedisQuotaRateLimiter>, clock: nat): set<nat>
    reads instances, set i | 0 <= i < |instances| :: instances[i].server
  {
    set i: nat | i < |instances| && !instances[i].Valid(clock)
  }

  function PlanFor(policies: Policies, identity: Identity): seq<Entry> {
    var order := Configured(DIMENSIONS, policies.dimensions);
    OrderIsExact(policies.dimensions);
    PlanOf(order, policies, identity)
  }

  ghost predicate DictatedBy(
    before: Histories, after: Histories, prefix: string, plan: seq<Entry>, now: nat, result: QuotaResult,
    verdicts: seq<RateLimitResult>, decider: nat)
  {
    && Answers(verdicts, before, prefix, plan, now) && Decides(verdicts, decider)
    && result == Answered(plan, verdicts, decider)
    && after == if AllAllow(verdicts) then ChargedAll(before, prefix, plan, |plan|, now) else before
  }

  /** What the histories of all keys dictate for a plan, and what they are afterwards. */
  ghost predicate Dictated(
    before: Histories, after: Histories, prefix: string, plan: seq<Entry>, now: nat, result: QuotaResult)
  {
    exists verdicts, decider: nat :: DictatedBy(before, after, prefix, plan, now, result, verdicts, decider)
  }

  lemma OneVerdict(
    history: Histories, prefix: string, plan: seq<Entry>, now: nat, v: seq<RateLimitResult>, w: seq<RateLimitResult>)
    requires Answers(v, history, prefix, plan, now) && Answers(w, history, prefix, plan, now)
    ensures v == w
  {
    forall i | 0 <= i < |plan| ensures v[i] == w[i] {
      assert Answer(v[i], Charges(history, EntryKey(prefix, plan[i])), plan[i].policy, now);
      assert Answer(w[i], Charges(history, EntryKey(prefix, plan[i])), plan[i].policy, now);
    }
  }

  /** One way at most to decide. */
  lemma OneDecision(
    before: Histories, prefix: string, plan: seq<Entry>, now: nat, after: Histories, result: QuotaResult,
    other: Histories, second: QuotaResult)
    requires Dictated(before, after, prefix, plan, now, result) && Dictated(before, other, prefix, plan, now, second)
    ensures result == second && after == other
  {
    var v, d: nat :| DictatedBy(before, after, prefix, plan, now, result, v, d);
    var w, e: nat :| DictatedBy(before, other, prefix, plan, now, second, w, e);
    OneVerdict(before, prefix, plan, now, v, w);
    DeciderIsUnique(v, d, e);
  }

  /** One instance serves a request; the others stay as sound as they were. */
  method ServeAt(
    instances: seq<RedisQuotaRateLimiter>, server: RedisServer, policies: Policies, prefix: string, i: nat,
    identity: Identity,
    ghost clock: nat, now: nat)
    returns (result: QuotaResult)
    requires Fleet(instances, server, policies, prefix) && i < |instances| && clock <= now
    requires Unsound(instances, clock) == {}
    modifies instances, server
    ensures Unsound(instances, now) == {}
    ensures Dictated(old(server.history), server.history, prefix, PlanFor(policies, identity), now, result)
  {
    var r := instances[i];
    assert i !in Unsound(instances, clock);
    forall j: nat | j < |instances| ensures instances[j].Valid(clock) { assert j !in Unsound(instances, clock); }
    assert forall j: nat ::
             j < |instances| ==> Number(server.issued, instances[j].instanceTag) <= instances[j].sequence;
    ghost var verdicts, decider;
    result, verdicts, decider := r.Consume(identity, clock, now);
    assert DictatedBy(old(server.history), server.history, prefix, r.Plan(identity), now, result, verdicts, decider);
    assert r.Plan(identity) == PlanFor(policies, identity);
    forall j: nat | j < |instances| ensures instances[j].Valid(now) {
      assert j != i ==> instances[j].instanceTag != r.instanceTag;
    }
  }

  datatype Request = Request(instance: nat, identity: Identity, at: nat)

  ghost predicate InOrder(requests: seq<Request>, clock: nat) {
    && (forall i :: 0 <= i < |requests| ==> clock <= requests[i].at)
    && forall i, j :: 0 <= i < j < |requests| ==> requests[i].at <= requests[j].at
  }

  /** One request, the histories before and after it, and its answer. */
  datatype Served = Served(request: Request, before: Histories, after: Histories, result: QuotaResult)

  ghost predicate Right(s: Served, policies: Policies, prefix: string) {
    Dictated(s.before, s.after, prefix, PlanFor(policies, s.request.identity), s.request.at, s.result)
  }

  /** The positions at which the histories dictate something else. */
  ghost function Wrong(log: seq<Served>, policies: Policies, prefix: string): set<nat> {
    set i: nat | i < |log| && !Right(log[i], policies, prefix)
  }

  /** One after the other, from `first` to `last`. */
  ghost predicate Linked(log: seq<Served>, first: Histories, last: Histories) {
    if log == [] then first == last
    else log[|log| - 1].after == last && Linked(log[..|log| - 1], first, log[|log| - 1].before)
  }

  lemma OneMoreServed(log: seq<Served>, s: Served, policies: Policies, prefix: string, first: Histories)
    requires Wrong(log, policies, prefix) == {} && Right(s, policies, prefix) && Linked(log, first, s.before)
    ensures Wrong(log + [s], policies, prefix) == {} && Linked(log + [s], first, s.after)
  {
    assert (log + [s])[..|log|] == log;
    assert forall i: nat :: i !in Wrong(log, policies, prefix);
  }

  /** The answers and requests of a log. */
  ghost predicate LogOf(log: seq<Served>, results: seq<QuotaResult>, requests: seq<Request>) {
    |log| == |results| <= |requests| && forall i ::
      0 <= i < |log| ==> log[i].result == results[i] && log[i].request == requests[i]
  }

  /**
   * Whichever instance serves which request: every answer is the one that the shared histories dictate at
   * that moment, and every instance stays sound.
   */
  method ServeAll(
    instances: seq<RedisQuotaRateLimiter>, server: RedisServer, policies: Policies, prefix: string,
    requests: seq<Request>, ghost clock: nat)
    returns (results: seq<QuotaResult>, ghost log: seq<Served>, ghost time: nat)
    requires Fleet(instances, server, policies, prefix) && Unsound(instances, clock) == {} && InOrder(requests, clock)
    requires forall i :: 0 <= i < |requests| ==> requests[i].instance < |instances|
    modifies instances, server
    ensures LogOf(log, results, requests) && |results| == |requests|
    ensures Wrong(log, policies, prefix) == {} && Linked(log, old(server.history), server.history)
    ensures Unsound(instances, time) == {}
  {
    results, log, time := [], [], clock;
    for n := 0 to |requests|
      invariant Unsound(instances, time) == {} && forall i :: n <= i < |requests| ==> time <= requests[i].at
      invariant LogOf(log, results, requests) && |results| == n
      invariant Wrong(log, policies, prefix) == {} && Linked(log, old(server.history), server.history)
    {
      var request := requests[n];
      ghost var before := server.history;
      var result := ServeAt(instances, server, policies, prefix, request.instance, request.identity, time, request.at);
      OneMoreServed(log, Served(request, before, server.history, result), policies, prefix, old(server.history));
      results, log, time := results + [result], log + [Served(request, before, server.history, result)], request.at;
    }
  }

  lemma Earlier(log: seq<Served>, policies: Policies, prefix: string)
    requires Wrong(log, policies, prefix) == {} && log != []
    ensures Wrong(log[..|log| - 1], policies, prefix) == {} && Right(log[|log| - 1], policies, prefix)
  {
    assert forall i: nat :: i !in Wrong(log, policies, prefix);
    assert |log| - 1 !in Wrong(log, policies, prefix);
  }

  /** Two runs of the same requests from the same histories answer alike, whoever served what. */
  lemma {:induction false} InstancesDoNotMatter(
    log: seq<Served>, other: seq<Served>, policies: Policies, prefix: string, first: Histories, last: Histories,
    otherLast: Histories)
    requires Wrong(log, policies, prefix) == {} && Linked(log, first, last)
    requires Wrong(other, policies, prefix) == {} && Linked(other, first, otherLast) && |log| == |other|
    requires forall i :: 0 <= i < |log| ==>
               log[i].request.identity == other[i].request.identity && log[i].request.at == other[i].request.at
    ensures last == otherLast && forall i :: 0 <= i < |log| ==> log[i].result == other[i].result
  {
    if log != [] {
      var n := |log| - 1;
      var s, t := log[n], other[n];
      Earlier(log, policies, prefix);
      Earlier(other, policies, prefix);
      InstancesDoNotMatter(log[..n], other[..n], policies, prefix, first, s.before, t.before);
      OneDecision(s.before, prefix, PlanFor(policies, s.request.identity), s.request.at, s.after, s.result, t.after,
        t.result);
      forall i | 0 <= i < |log| ensures log[i].result == other[i].result {
        if i < n { assert log[i] == log[..n][i] && other[i] == other[..n][i]; }
      }
    }
  }
}
