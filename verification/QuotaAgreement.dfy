/** The in-process quota and the shared one give the same answers for as long as the ceiling forgets nobody. */
module QuotaAgreement {
  import opened RateLimiter
  import opened QuotaPlan
  import opened RedisServer
  import Quota
  import Redis = RedisQuota

  /** What every local limiter remembers. */
  type Book = map<Budget, Quota.Snapshot>

  ghost function BookOf(q: Quota.QuotaRateLimiter): Book
    reads q.windows.Values
  {
    map b | b in q.windows :: Quota.Now(q.windows[b])
  }

  ghost predicate Matches(book: Book, history: Histories, prefix: string) {
    forall b, v ::
      b in book ==> Charges(book[b].history, Quota.LocalKey(b, v)) == Charges(history, Redis.KeyOf(prefix, b, v))
  }

  /** Same configuration, and the same charges for every budget and identity. */
  ghost predicate Corresponds(q: Quota.QuotaRateLimiter, r: Redis.RedisQuotaRateLimiter)
    reads q.windows.Values, r.server
  {
    q.policies == r.policies && q.order == r.order && Matches(BookOf(q), r.server.history, r.prefix)
  }

  method StartBoth(policies: Policies, maxIdentities: nat, prefix: string, tag: nat)
    returns (q: Quota.QuotaRateLimiter, r: Redis.RedisQuotaRateLimiter)
    requires policies.Ok() && maxIdentities >= 1
    ensures q.Valid(0) && r.Valid(0) && Corresponds(q, r)
    ensures q.policies == policies && q.maxIdentities == maxIdentities
    ensures forall b, key :: b in BookOf(q) ==> Charges(BookOf(q)[b].history, key) == []
    ensures fresh(q.windows.Values) && fresh(r) && fresh(r.server)
  {
    q := new Quota.QuotaRateLimiter(policies, maxIdentities);
    var server := new RedisServer();
    Redis.NothingChargedYet(prefix, policies);
    r := new Redis.RedisQuotaRateLimiter(server, policies, prefix, tag, 0);
    forall b, key | b in BookOf(q) ensures Charges(BookOf(q)[b].history, key) == [] {
      assert q.ChargesOf(b, key) == [];
    }
  }

  lemma LocalKeysAreDistinct(b: Budget, v: string, w: string)
    requires Quota.LocalKey(b, v) == Quota.LocalKey(b, w)
    ensures v == w
  {
    if b.Of? {
      var n := Name(b.dimension);
      assert v == (n + "=" + v)[|n| + 1..] && w == (n + "=" + w)[|n| + 1..];
    }
  }

  /** The local verdicts are those of the histories in the book. */
  ghost predicate LocalAnswers(verdicts: seq<RateLimitResult>, book: Book, plan: seq<Entry>, now: nat) {
    && |verdicts| == |plan|
    && forall i :: 0 <= i < |plan| ==>
         && plan[i].budget in book
         && Redis.Answer(verdicts[i],
              Charges(book[plan[i].budget].history, Quota.LocalKey(plan[i].budget, plan[i].value)), plan[i].policy, now)
  }

  lemma VerdictsAgree(
    local: seq<RateLimitResult>, book: Book, shared: seq<RateLimitResult>, history: Histories, prefix: string,
    plan: seq<Entry>, now: nat)
    requires LocalAnswers(local, book, plan, now) && Redis.Answers(shared, history, prefix, plan, now)
    requires Matches(book, history, prefix)
    ensures local == shared
  {
    forall i | 0 <= i < |plan| ensures local[i] == shared[i] {
      assert Redis.Answer(local[i], Charges(history, Redis.EntryKey(prefix, plan[i])), plan[i].policy, now);
      assert Redis.Answer(shared[i], Charges(history, Redis.EntryKey(prefix, plan[i])), plan[i].policy, now);
    }
  }

  predicate SameLabel(a: Entry, b: Entry) { a.policy == b.policy && Reported(a.budget) == Reported(b.budget) }

  /** Two answers for the same decided request: only the label of an allowed one can differ. */
  lemma AnswersAgree(plan: seq<Entry>, verdicts: seq<RateLimitResult>, decider: nat)
    requires |plan| == |verdicts| && Decides(verdicts, decider)
    requires forall i ::
               0 <= i < |plan| ==>
                 verdicts[i].limit == plan[i].policy.limit && verdicts[i].windowMs == plan[i].policy.windowMs
    ensures var local, shared :=
              Report(plan[decider], verdicts[decider], AllAllow(verdicts)), Redis.Answered(plan, verdicts, decider);
            && local.verdict.allowed == shared.verdict.allowed == AllAllow(verdicts)
            && local.verdict.remaining == shared.verdict.remaining
            && local.verdict.retryAfterMs == shared.verdict.retryAfterMs
            && (local == shared <==> AllAllow(verdicts) ==> SameLabel(plan[decider], plan[0]))
  {
    assert AllAllow(verdicts) ==> verdicts[decider].allowed;
  }

  function Same(now: nat, n: nat): seq<nat> { seq(n, i => now) }

  ghost function SharedAfter(history: Histories, prefix: string, plan: seq<Entry>, now: nat, charged: bool): Histories {
    if charged then Redis.ChargedAll(history, prefix, plan, |plan|, now) else history
  }

  /** A planned budget is charged for the planned value and for no other. */
  lemma SharedPlanned(history: Histories, prefix: string, plan: seq<Entry>, i: nat, v: string, now: nat)
    requires NoBudgetTwice(plan) && i < |plan|
    ensures Charges(Redis.ChargedAll(history, prefix, plan, |plan|, now), Redis.KeyOf(prefix, plan[i].budget, v))
         == Charges(history, Redis.KeyOf(prefix, plan[i].budget, v)) + if v == plan[i].value then [now] else []
  {
    var key := Redis.KeyOf(prefix, plan[i].budget, v);
    Redis.ChargedOnce(history, prefix, plan, |plan|, now, key);
    Redis.PlannedKeyMeans(prefix, plan, |plan|, key);
    if v == plan[i].value {
      assert Redis.EntryKey(prefix, plan[i]) == key;
    } else {
      forall j | 0 <= j < |plan| ensures Redis.EntryKey(prefix, plan[j]) != key {
        if Redis.EntryKey(prefix, plan[j]) == key {
          Redis.KeysAreDistinct(prefix, plan[j].budget, plan[j].value, plan[i].budget, v);
          assert false;
        }
      }
    }
  }

  /** The local limiter of a budget is charged for the planned value and for no other. */
  lemma LocalPlanned(before: Histories, after: Histories, b: Budget, value: string, v: string, charge: seq<nat>)
    requires Quota.Moved(before, after, Quota.LocalKey(b, value), {}, charge)
    ensures Charges(after, Quota.LocalKey(b, v))
              == Charges(before, Quota.LocalKey(b, v)) + if v == value then charge else []
  {
    var h := Charges(before, Quota.LocalKey(b, v));
    assert h + [] == h;
    if Quota.LocalKey(b, v) == Quota.LocalKey(b, value) { LocalKeysAreDistinct(b, v, value); }
  }

  /** A planned budget has the same charges on both sides afterwards. */
  lemma PlannedAgree(
    before: Histories, after: Histories, history: Histories, prefix: string, plan: seq<Entry>, i: nat, v: string,
    now: nat, charged: bool)
    requires NoBudgetTwice(plan) && i < |plan|
    requires var b := plan[i].budget;
             && Quota.Moved(before, after, Quota.LocalKey(b, plan[i].value), {}, if charged then [now] else [])
             && Charges(before, Quota.LocalKey(b, v)) == Charges(history, Redis.KeyOf(prefix, b, v))
    ensures Charges(after, Quota.LocalKey(plan[i].budget, v))
         == Charges(SharedAfter(history, prefix, plan, now, charged), Redis.KeyOf(prefix, plan[i].budget, v))
  {
    LocalPlanned(before, after, plan[i].budget, plan[i].value, v, if charged then [now] else []);
    SharedPlanned(history, prefix, plan, i, v, now);
  }

  /** The shared charges of a budget that is not planned stay as they were. */
  lemma UnplannedAgree(
    history: Histories, prefix: string, plan: seq<Entry>, b: Budget, v: string, now: nat, charged: bool)
    requires NoBudgetTwice(plan) && !Plans(plan, b)
    ensures Charges(SharedAfter(history, prefix, plan, now, charged), Redis.KeyOf(prefix, b, v))
              == Charges(history, Redis.KeyOf(prefix, b, v))
  {
    var key, h := Redis.KeyOf(prefix, b, v), Charges(history, Redis.KeyOf(prefix, b, v));
    assert h + [] == h;
    Redis.ChargedOnce(history, prefix, plan, |plan|, now, key);
    Redis.PlannedKeyMeans(prefix, plan, |plan|, key);
    forall j | 0 <= j < |plan| ensures Redis.EntryKey(prefix, plan[j]) != key {
      if Redis.EntryKey(prefix, plan[j]) == key { Redis.KeysAreDistinct(prefix, plan[j].budget, plan[j].value, b, v); }
    }
  }

  ghost predicate MovedEntry(
    before: Quota.Snapshot, after: Quota.Snapshot, entry: Entry, now: nat, forgotten: set<string>, charged: bool,
    maxIdentities: nat)
  {
    var key := Quota.LocalKey(entry.budget, entry.value);
    && Quota.Moved(before.history, after.history, key, forgotten, if charged then [now] else [])
    && Victims(before.windows, key, maxIdentities, entry.policy.windowMs, now, forgotten)
  }

  /** The local half of a request: every planned budget charged or not, the others as they were. */
  ghost predicate BookMoved(
    before: Book, after: Book, plan: seq<Entry>, now: nat, forgotten: seq<set<string>>, charged: bool,
    maxIdentities: nat)
  {
    && before.Keys == after.Keys && |forgotten| == |plan|
    && (forall i :: 0 <= i < |plan| ==> plan[i].budget in before)
    && (forall i :: 0 <= i < |plan| ==>
          MovedEntry(before[plan[i].budget], after[plan[i].budget], plan[i], now, forgotten[i], charged, maxIdentities))
    && forall b :: b in before && !Plans(plan, b) ==> after[b] == before[b]
  }

  /** No planned limiter is so full of live identities that this request makes it forget one. */
  ghost predicate HasRoom(book: Book, plan: seq<Entry>, now: nat, maxIdentities: nat) {
    forall i :: 0 <= i < |plan| && plan[i].budget in book ==>
      !CeilingForgets(book[plan[i].budget].windows, Quota.LocalKey(plan[i].budget, plan[i].value), maxIdentities,
        plan[i].policy.windowMs, now)
  }

  /** The limiter enforces the policy of the entry. */
  ghost predicate Enforces(l: InProcessRateLimiter, entry: Entry, maxIdentities: nat) {
    l.limit == entry.policy.limit && l.windowMs == entry.policy.windowMs && l.maxIdentities == maxIdentities
  }

  lemma ServingEnforces(q: Quota.QuotaRateLimiter, identity: Identity, limiters: seq<InProcessRateLimiter>)
    requires q.Wired() && q.Serves(limiters, q.Plan(identity))
    ensures forall i :: 0 <= i < |limiters| ==> Enforces(limiters[i], q.Plan(identity)[i], q.maxIdentities)
  {
    PlannedEntries(q.order, q.policies, identity);
    forall i | 0 <= i < |limiters| ensures Enforces(limiters[i], q.Plan(identity)[i], q.maxIdentities) {
      assert EntryOf(q.Plan(identity)[i], q.policies, identity);
    }
  }

  /** What the book says about the planned limiters, before and after. */
  ghost predicate Booked(
    before: Book, after: Book, limiters: seq<InProcessRateLimiter>, snapshots: seq<Quota.Snapshot>, plan: seq<Entry>)
    requires |limiters| == |snapshots| == |plan|
    reads limiters
  {
    && before.Keys == after.Keys
    && (forall i :: 0 <= i < |plan| ==>
          plan[i].budget in before && before[plan[i].budget] == snapshots[i]
            && after[plan[i].budget] == Quota.Now(limiters[i]))
    && forall b :: b in before && !Plans(plan, b) ==> after[b] == before[b]
  }

  lemma ServingIsBooked(
    q: Quota.QuotaRateLimiter, before: Book, limiters: seq<InProcessRateLimiter>, snapshots: seq<Quota.Snapshot>,
    plan: seq<Entry>)
    requires q.Serves(limiters, plan) && |snapshots| == |plan| && before.Keys == q.windows.Keys
    requires forall i :: 0 <= i < |plan| ==> before[plan[i].budget] == snapshots[i]
    requires forall b :: b in before && q.windows[b] !in limiters ==> Quota.Now(q.windows[b]) == before[b]
    ensures Booked(before, BookOf(q), limiters, snapshots, plan)
  {
  }

  lemma EntryMoved(
    l: InProcessRateLimiter, before: Quota.Snapshot, entry: Entry, now: nat, verdict: RateLimitResult,
    forgotten: set<string>, charged: bool)
    requires l.limit == entry.policy.limit && l.windowMs == entry.policy.windowMs
    requires Quota.Settled(l, before, Quota.LocalKey(entry.budget, entry.value), now, verdict, forgotten,
               if charged then [now] else [])
    ensures Redis.Answer(verdict, Charges(before.history, Quota.LocalKey(entry.budget, entry.value)), entry.policy, now)
    ensures MovedEntry(before, Quota.Now(l), entry, now, forgotten, charged, l.maxIdentities)
  {
  }

  lemma SettledEntry(
    limiters: seq<InProcessRateLimiter>, snapshots: seq<Quota.Snapshot>, plan: seq<Entry>, at: Quota.Readings, now: nat,
    verdicts: seq<RateLimitResult>, forgotten: seq<set<string>>, charged: bool, maxIdentities: nat, i: nat)
    requires |limiters| == |snapshots| == |verdicts| == |forgotten| == |plan| > i && at.For(|plan|)
    requires Quota.AllSettled(limiters, snapshots, Quota.Keys(plan), at, verdicts, forgotten, charged)
    requires Enforces(limiters[i], plan[i], maxIdentities) && at.checks[i] == now && at.charges[i] == now
    ensures Redis.Answer(verdicts[i], Charges(snapshots[i].history, Quota.LocalKey(plan[i].budget, plan[i].value)),
              plan[i].policy, now)
    ensures MovedEntry(snapshots[i], Quota.Now(limiters[i]), plan[i], now, forgotten[i], charged, maxIdentities)
  {
    Quota.SettledAt(limiters, snapshots, Quota.Keys(plan), at, verdicts, forgotten, charged, i);
    Quota.KeysAt(plan, i);
    EntryMoved(limiters[i], snapshots[i], plan[i], now, verdicts[i], forgotten[i], charged);
  }

  lemma SettledIsMoved(
    limiters: seq<InProcessRateLimiter>, snapshots: seq<Quota.Snapshot>, before: Book, after: Book, plan: seq<Entry>,
    at: Quota.Readings,
    now: nat, verdicts: seq<RateLimitResult>, forgotten: seq<set<string>>, charged: bool, maxIdentities: nat)
    requires |limiters| == |snapshots| == |verdicts| == |forgotten| == |plan| && at.For(|plan|)
    requires Booked(before, after, limiters, snapshots, plan)
    requires forall i ::
               0 <= i < |plan| ==>
                 Enforces(limiters[i], plan[i], maxIdentities) && at.checks[i] == now && at.charges[i] == now
    requires Quota.AllSettled(limiters, snapshots, Quota.Keys(plan), at, verdicts, forgotten, charged)
    ensures LocalAnswers(verdicts, before, plan, now)
    ensures BookMoved(before, after, plan, now, forgotten, charged, maxIdentities)
  {
    forall i | 0 <= i < |plan|
      ensures Redis.Answer(verdicts[i], Charges(snapshots[i].history, Quota.LocalKey(plan[i].budget, plan[i].value)),
                plan[i].policy, now)
      ensures MovedEntry(snapshots[i], Quota.Now(limiters[i]), plan[i], now, forgotten[i], charged, maxIdentities)
    {
      SettledEntry(limiters, snapshots, plan, at, now, verdicts, forgotten, charged, maxIdentities, i);
    }
  }

  /** Charges match again afterwards, if nobody was forgotten. */
  lemma StaysMatched(
    before: Book, after: Book, plan: seq<Entry>, now: nat, forgotten: seq<set<string>>, charged: bool,
    maxIdentities: nat,
    history: Histories, prefix: string)
    requires NoBudgetTwice(plan) && BookMoved(before, after, plan, now, forgotten, charged, maxIdentities)
    requires Matches(before, history, prefix) && HasRoom(before, plan, now, maxIdentities)
    ensures Matches(after, SharedAfter(history, prefix, plan, now, charged), prefix)
  {
    forall b, v | b in after
      ensures Charges(after[b].history, Quota.LocalKey(b, v))
                == Charges(SharedAfter(history, prefix, plan, now, charged), Redis.KeyOf(prefix, b, v))
    {
      assert Charges(before[b].history, Quota.LocalKey(b, v)) == Charges(history, Redis.KeyOf(prefix, b, v));
      if Plans(plan, b) {
        var i :| 0 <= i < |plan| && plan[i].budget == b;
        assert MovedEntry(before[b], after[b], plan[i], now, forgotten[i], charged, maxIdentities);
        PlannedAgree(before[b].history, after[b].history, history, prefix, plan, i, v, now, charged);
      } else {
        UnplannedAgree(history, prefix, plan, b, v, now, charged);
      }
    }
  }

  /** The in-process half of a step, for a plan and the limiters that serve it. */
  method PlanStep(
    q: Quota.QuotaRateLimiter, plan: seq<Entry>, planned: seq<InProcessRateLimiter>, clock: nat, now: nat)
    returns (local: QuotaResult, ghost verdicts: seq<RateLimitResult>, ghost decider: nat,
      ghost forgotten: seq<set<string>>)
    requires q.Valid(clock) && clock <= now && |plan| >= 1 && q.Serves(planned, plan)
    requires forall i :: 0 <= i < |plan| ==> Enforces(planned[i], plan[i], q.maxIdentities)
    modifies planned
    ensures q.Valid(now)
    ensures Decides(verdicts, decider) && LocalAnswers(verdicts, old(BookOf(q)), plan, now)
    ensures local == Report(plan[decider], verdicts[decider], AllAllow(verdicts))
    ensures BookMoved(old(BookOf(q)), BookOf(q), plan, now, forgotten, AllAllow(verdicts), q.maxIdentities)
  {
    ghost var before, snapshots := BookOf(q), Quota.Snapshots(planned);
    var at := Quota.Readings(clock, Same(now, |plan|), Same(now, |plan|), now);
    local, verdicts, decider, forgotten := q.EvaluatePlan(plan, planned, true, at);
    ServingIsBooked(q, before, planned, snapshots, plan);
    SettledIsMoved(planned, snapshots, before, BookOf(q), plan, at, now, verdicts, forgotten, AllAllow(verdicts),
      q.maxIdentities);
  }

  /** The in-process half of a step. */
  method LocalStep(q: Quota.QuotaRateLimiter, identity: Identity, clock: nat, now: nat)
    returns (local: QuotaResult, ghost verdicts: seq<RateLimitResult>, ghost decider: nat,
      ghost forgotten: seq<set<string>>)
    requires q.Valid(clock) && clock <= now
    modifies q.windows.Values
    ensures q.Valid(now)
    ensures Decides(verdicts, decider) && LocalAnswers(verdicts, old(BookOf(q)), q.Plan(identity), now)
    ensures local == Report(q.Plan(identity)[decider], verdicts[decider], AllAllow(verdicts))
    ensures BookMoved(old(BookOf(q)), BookOf(q), q.Plan(identity), now, forgotten, AllAllow(verdicts), q.maxIdentities)
  {
    q.LimitersServe(identity);
    var planned := q.LimitersFor(q.Plan(identity));
    ServingEnforces(q, identity, planned);
    local, verdicts, decider, forgotten := PlanStep(q, q.Plan(identity), planned, clock, now);
  }

  /** The shared half, which the in-process side does not notice. */
  method SharedStep(
    r: Redis.RedisQuotaRateLimiter, identity: Identity, clock: nat, now: nat, ghost q: Quota.QuotaRateLimiter)
    returns (shared: QuotaResult, ghost verdicts: seq<RateLimitResult>, ghost decider: nat)
    requires r.Valid(clock) && clock <= now && q.Valid(now)
    modifies r`sequence, r.server
    ensures r.Valid(now) && q.Valid(now) && BookOf(q) == old(BookOf(q))
    ensures Redis.Answers(verdicts, old(r.server.history), r.prefix, r.Plan(identity), now)
    ensures Decides(verdicts, decider)
    ensures shared == Redis.Answered(r.Plan(identity), verdicts, decider)
    ensures r.server.history == SharedAfter(old(r.server.history), r.prefix, r.Plan(identity), now, AllAllow(verdicts))
  {
    shared, verdicts, decider := r.Consume(identity, clock, now);
  }

  lemma StepStaysMatched(
    q: Quota.QuotaRateLimiter, identity: Identity, before: Book, after: Book, now: nat, forgotten: seq<set<string>>,
    charged: bool,
    history: Histories, prefix: string)
    requires q.Wired() && BookMoved(before, after, q.Plan(identity), now, forgotten, charged, q.maxIdentities)
    requires Matches(before, history, prefix)
    ensures HasRoom(before, q.Plan(identity), now, q.maxIdentities)
        ==> Matches(after, SharedAfter(history, prefix, q.Plan(identity), now, charged), prefix)
  {
    PlanIsExact(q.order, q.policies, identity);
    if HasRoom(before, q.Plan(identity), now, q.maxIdentities) {
      StaysMatched(before, after, q.Plan(identity), now, forgotten, charged, q.maxIdentities, history, prefix);
    }
  }

  lemma StepAgrees(
    plan: seq<Entry>, verdicts: seq<RateLimitResult>, book: Book, shared: seq<RateLimitResult>,
    decider: nat, sharedDecider: nat, history: Histories, prefix: string, now: nat)
    requires LocalAnswers(verdicts, book, plan, now) && Matches(book, history, prefix)
    requires Redis.Answers(shared, history, prefix, plan, now)
    requires Decides(verdicts, decider) && Decides(shared, sharedDecider)
    ensures verdicts == shared && decider == sharedDecider < |plan|
    ensures var l, s :=
              Report(plan[decider], verdicts[decider], AllAllow(verdicts)), Redis.Answered(plan, verdicts, decider);
            && l.verdict.allowed == s.verdict.allowed == AllAllow(verdicts)
            && l.verdict.remaining == s.verdict.remaining
            && l.verdict.retryAfterMs == s.verdict.retryAfterMs
            && (l == s <==> AllAllow(verdicts) ==> SameLabel(plan[decider], plan[0]))
  {
    VerdictsAgree(verdicts, book, shared, history, prefix, plan, now);
    DeciderIsUnique(verdicts, decider, sharedDecider);
    forall i | 0 <= i < |plan|
      ensures verdicts[i].limit == plan[i].policy.limit && verdicts[i].windowMs == plan[i].policy.windowMs
    {
      assert Redis.Answer(shared[i], Charges(history, Redis.EntryKey(prefix, plan[i])), plan[i].policy, now);
    }
    AnswersAgree(plan, verdicts, decider);
  }

  /**
   * One `consume` of the same request on both sides, from corresponding states and with the same clock.
   * They agree on whether it is allowed, what remains and when to retry, and on a denial they agree
   * entirely; and they stay in correspondence unless a full local limiter forgets an identity.
   */
  method Lockstep(q: Quota.QuotaRateLimiter, r: Redis.RedisQuotaRateLimiter, identity: Identity, clock: nat, now: nat)
    returns (local: QuotaResult, shared: QuotaResult, ghost decider: nat, ghost forgotten: seq<set<string>>)
    requires q.Valid(clock) && r.Valid(clock) && Corresponds(q, r) && clock <= now
    modifies q.windows.Values, r`sequence, r.server
    ensures q.Valid(now) && r.Valid(now)
    ensures local.verdict.allowed == shared.verdict.allowed
    ensures local.verdict.remaining == shared.verdict.remaining
    ensures local.verdict.retryAfterMs == shared.verdict.retryAfterMs
    ensures |q.Plan(identity)| > decider
    ensures local == shared <==> local.verdict.allowed ==> SameLabel(q.Plan(identity)[decider], q.Plan(identity)[0])
    ensures BookMoved(old(BookOf(q)), BookOf(q), q.Plan(identity), now, forgotten, local.verdict.allowed,
              q.maxIdentities)
    ensures old(HasRoom(BookOf(q), q.Plan(identity), now, q.maxIdentities)) ==> Corresponds(q, r)
  {
    ghost var history, prefix, before, plan := r.server.history, r.prefix, BookOf(q), q.Plan(identity);
    ghost var verdicts, sharedVerdicts, sharedDecider;
    local, verdicts, decider, forgotten := LocalStep(q, identity, clock, now);
    ghost var after := BookOf(q);
    StepStaysMatched(q, identity, before, after, now, forgotten, AllAllow(verdicts), history, prefix);
    shared, sharedVerdicts, sharedDecider := SharedStep(r, identity, clock, now, q);
    StepAgrees(plan, verdicts, before, sharedVerdicts, decider, sharedDecider, history, prefix, now);
  }
}
