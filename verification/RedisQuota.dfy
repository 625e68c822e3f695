/** The shared store: sorted sets with an expiry, as far as the quota script uses them. */
module RedisServer {
  import opened Wrappers
  import opened RateLimiter

  /** Unique per charge: the instance, its counter, the clock reading and the position in the plan. */
  datatype Member = Member(tag: nat, sequence: nat, now: nat, index: nat)

  datatype Scored = Scored(score: nat, member: Member)

  /** Entries by ascending score; `deadline` is when the whole key disappears. */
  datatype SortedSet = SortedSet(entries: seq<Scored>, deadline: Option<nat>)

  type Sets = map<string, SortedSet>

  /** Member numbers by instance tag. */
  type Counters = map<nat, nat>

  function Number(issued: Counters, tag: nat): nat { if tag in issued then issued[tag] else 0 }

  function Entries(sets: Sets, key: string): seq<Scored> { if key in sets then sets[key].entries else [] }

  function Deadline(sets: Sets, key: string): Option<nat> { if key in sets then sets[key].deadline else None }

  function Scores(entries: seq<Scored>): seq<nat> { seq(|entries|, i requires 0 <= i < |entries| => entries[i].score) }

  /** An empty sorted set does not exist. */
  function Put(sets: Sets, key: string, entries: seq<Scored>): Sets {
    if entries == [] then sets - {key} else sets[key := SortedSet(entries, Deadline(sets, key))]
  }

  function Above(entries: seq<Scored>, max: int): seq<Scored> {
    if entries == [] then []
    else
      var rest, last := Above(entries[..|entries| - 1], max), entries[|entries| - 1];
      if last.score <= max then rest else rest + [last]
  }

  function Without(entries: seq<Scored>, member: Member): seq<Scored> {
    if entries == [] then []
    else
      var rest, last := Without(entries[..|entries| - 1], member), entries[|entries| - 1];
      if last.member == member then rest else rest + [last]
  }

  function Insert(entries: seq<Scored>, entry: Scored): seq<Scored> {
    if entries == [] || entries[|entries| - 1].score <= entry.score then entries + [entry]
    else Insert(entries[..|entries| - 1], entry) + [entries[|entries| - 1]]
  }

  /** `ZCOUNT min +inf`. */
  function ScoredFrom(entries: seq<Scored>, min: int): nat {
    if entries == [] then 0
    else ScoredFrom(entries[..|entries| - 1], min) + if entries[|entries| - 1].score >= min then 1 else 0
  }

  predicate Gone(set_: SortedSet, now: nat) { set_.deadline.Some? && set_.deadline.value <= now }

  function Reaped(sets: Sets, now: nat): Sets { map key | key in sets && !Gone(sets[key], now) :: sets[key] }

  /** `ZADD` and then `PEXPIRE`. */
  function Added(sets: Sets, key: string, now: nat, member: Member, windowMs: nat): Sets {
    var added := Put(sets, key, Insert(Without(Entries(sets, key), member), Scored(now, member)));
    if key in added then added[key := added[key].(deadline := Some(now + windowMs))] else added
  }

  class RedisServer {
    var sets: Sets
    /** Every charge under a key, ever. */
    ghost var history: Histories
    /** The last member number that each instance has stored. */
    ghost var issued: Counters

    constructor ()
      ensures sets == map[] && history == map[] && issued == map[]
    {
      sets, history, issued := map[], map[], map[];
    }

    method Reap(now: nat)
      modifies this`sets
      ensures sets == Reaped(old(sets), now)
    {
      sets := Reaped(sets, now);
    }

    method ZRemRangeByScore(key: string, max: int)
      modifies this`sets
      ensures sets == Put(old(sets), key, Above(Entries(old(sets), key), max))
    {
      sets := Put(sets, key, Above(Entries(sets, key), max));
    }

    method ZCard(key: string) returns (n: nat)
      ensures n == |Entries(sets, key)|
    {
      n := |Entries(sets, key)|;
    }

    /** `ZREMRANGEBYSCORE`, then `ZCARD`. */
    method Trim(key: string, max: int) returns (left: nat)
      modifies this`sets
      ensures sets == Put(old(sets), key, Above(Entries(old(sets), key), max)) && left == |Entries(sets, key)|
    {
      ZRemRangeByScore(key, max);
      left := ZCard(key);
    }

    method ZCount(key: string, min: int) returns (n: nat)
      ensures n == ScoredFrom(Entries(sets, key), min)
    {
      n := ScoredFrom(Entries(sets, key), min);
    }

    method ZRangeFirst(key: string) returns (score: Option<nat>)
      ensures score == if Entries(sets, key) == [] then None else Some(Entries(sets, key)[0].score)
    {
      score := if Entries(sets, key) == [] then None else Some(Entries(sets, key)[0].score);
    }

    /** Overwrites the score of a member that is already there. */
    method ZAdd(key: string, score: nat, member: Member)
      modifies this`sets
      ensures sets == Put(old(sets), key, Insert(Without(Entries(old(sets), key), member), Scored(score, member)))
    {
      sets := Put(sets, key, Insert(Without(Entries(sets, key), member), Scored(score, member)));
    }

    method PExpire(key: string, now: nat, milliseconds: nat)
      modifies this`sets
      ensures sets
                == if key in old(sets) then old(sets)[key := old(sets)[key].(deadline := Some(now + milliseconds))]
                  else old(sets)
    {
      if key in sets { sets := sets[key := sets[key].(deadline := Some(now + milliseconds))]; }
    }

    /** `ZADD`, `PEXPIRE` and `ZCARD`: one charge. */
    method Charge(key: string, now: nat, member: Member, windowMs: nat) returns (used: nat)
      modifies this`sets, this`history
      ensures sets == Added(old(sets), key, now, member, windowMs) && used == |Entries(sets, key)|
      ensures history == old(history)[key := Charges(old(history), key) + [now]]
    {
      ZAdd(key, now, member);
      PExpire(key, now, windowMs);
      history := history[key := Charges(history, key) + [now]];
      used := ZCard(key);
    }
  }
}

/** The quota over a shared store, proved to make the decision that the full history dictates. */
module RedisQuota {
  import opened Wrappers
  import opened SlidingWindow
  import opened RateLimiter
  import opened QuotaPlan
  import opened RedisServer

  function BudgetName(budget: Budget): string {
    match budget
    case Base => "base"
    case Of(d) => Name(d)
  }

  function KeyOf(prefix: string, budget: Budget, value: string): string { prefix + (BudgetName(budget) + "=" + value) }

  lemma NameIsPlain(budget: Budget)
    ensures forall i :: 0 <= i < |BudgetName(budget)| ==> BudgetName(budget)[i] != '='
  {
  }

  lemma NamesDiffer(b: Budget, c: Budget)
    requires BudgetName(b) == BudgetName(c)
    ensures b == c
  {
    assert |BudgetName(b)| == |BudgetName(c)| && BudgetName(b)[0] == BudgetName(c)[0];
  }

  /** No two budgets or identities share a key, whatever the prefix and the values. */
  lemma KeysAreDistinct(prefix: string, b: Budget, v: string, c: Budget, w: string)
    requires KeyOf(prefix, b, v) == KeyOf(prefix, c, w)
    ensures b == c && v == w
  {
    var m, n := BudgetName(b), BudgetName(c);
    var s, t := m + "=" + v, n + "=" + w;
    assert KeyOf(prefix, b, v)[|prefix|..] == s && KeyOf(prefix, c, w)[|prefix|..] == t;
    NameIsPlain(b);
    NameIsPlain(c);
    assert s[|m|] == '=' && t[|n|] == '=';
    assert m == s[..|m|] && n == t[..|n|];
    NamesDiffer(b, c);
    assert v == s[|m| + 1..] && w == t[|n| + 1..];
  }

  ghost predicate Outlives(entries: seq<Scored>, deadline: Option<nat>, windowMs: nat) {
    deadline.Some? ==> forall i :: 0 <= i < |entries| ==> entries[i].score + windowMs <= deadline.value
  }

  /** One key holds a suffix of its full history, and does not expire before its newest entry. */
  ghost predicate SlotOk(sets: Sets, history: Histories, key: string, policy: Policy, clock: nat) {
    && HistoryOk(Charges(history, key), policy.limit, policy.windowMs, clock)
    && Agrees(Charges(history, key), Scores(Entries(sets, key)), policy.windowMs, clock)
    && Outlives(Entries(sets, key), Deadline(sets, key), policy.windowMs)
  }

  /** The slots that are out of step with their history. */
  ghost function Broken(
    sets: Sets, history: Histories, prefix: string, policies: Policies, clock: nat): iset<(Budget, string)>
  {
    iset budget, value | policies.Has(budget)
      && !SlotOk(sets, history, KeyOf(prefix, budget, value), policies.For(budget), clock)
      :: (budget, value)
  }

  ghost predicate SlotsOk(sets: Sets, history: Histories, prefix: string, policies: Policies, clock: nat) {
    Broken(sets, history, prefix, policies, clock) == iset{}
  }

  lemma SlotsMean(sets: Sets, history: Histories, prefix: string, policies: Policies, clock: nat)
    ensures SlotsOk(sets, history, prefix, policies, clock)
       <==> forall budget, value :: policies.Has(budget) ==>
              SlotOk(sets, history, KeyOf(prefix, budget, value), policies.For(budget), clock)
  {
    var broken := Broken(sets, history, prefix, policies, clock);
    if broken == iset{} {
      forall b, v | policies.Has(b) ensures SlotOk(sets, history, KeyOf(prefix, b, v), policies.For(b), clock) {
        assert (b, v) !in broken;
      }
    }
    if forall b, v :: policies.Has(b) ==> SlotOk(sets, history, KeyOf(prefix, b, v), policies.For(b), clock) {
      assert forall x :: x !in broken;
    }
  }

  lemma SlotAt(
    sets: Sets, history: Histories, prefix: string, policies: Policies, clock: nat, budget: Budget, value: string)
    requires SlotsOk(sets, history, prefix, policies, clock) && policies.Has(budget)
    ensures SlotOk(sets, history, KeyOf(prefix, budget, value), policies.For(budget), clock)
  {
    SlotsMean(sets, history, prefix, policies, clock);
  }

  lemma SlotGrowsOlder(h: seq<nat>, scores: seq<nat>, policy: Policy, clock: nat, now: nat)
    requires HistoryOk(h, policy.limit, policy.windowMs, clock) && Agrees(h, scores, policy.windowMs, clock)
    requires clock <= now
    ensures HistoryOk(h, policy.limit, policy.windowMs, now) && Agrees(h, scores, policy.windowMs, now)
  {
    HistoryMeans(h, policy.limit, policy.windowMs, clock);
    HistoryMeans(h, policy.limit, policy.windowMs, now);
    AgreesMeans(h, scores, policy.windowMs, clock);
    AgreesMeans(h, scores, policy.windowMs, now);
  }

  lemma NothingLiveIsLost(h: seq<nat>, entries: seq<Scored>, policy: Policy, now: nat)
    requires Agrees(h, Scores(entries), policy.windowMs, now)
    requires forall i :: 0 <= i < |entries| ==> entries[i].score + policy.windowMs <= now
    ensures Agrees(h, Scores([]), policy.windowMs, now)
  {
    var scores := Scores(entries);
    AgreesMeans(h, scores, policy.windowMs, now);
    AgreesMeans(h, [], policy.windowMs, now);
    var cut := |h| - |scores|;
    forall i | 0 <= i < |h| ensures !Live(h[i], policy.windowMs, now) {
      if i >= cut { assert h[i] == scores[i - cut] == entries[i - cut].score; }
    }
    assert h[|h|..] == [] && Scores([]) == [];
  }

  /** Expiry discards no live entry, and time passing keeps every slot. */
  lemma ReapKeepsSlot(sets: Sets, history: Histories, key: string, policy: Policy, clock: nat, now: nat)
    requires PolicyOk(policy) && SlotOk(sets, history, key, policy, clock) && clock <= now
    ensures SlotOk(Reaped(sets, now), history, key, policy, now)
  {
    SlotGrowsOlder(Charges(history, key), Scores(Entries(sets, key)), policy, clock, now);
    if key in sets && Gone(sets[key], now) {
      NothingLiveIsLost(Charges(history, key), Entries(sets, key), policy, now);
    }
  }

  ghost predicate IssuedIn(entries: seq<Scored>, issued: Counters) {
    entries == [] || (
      var n := |entries| - 1;
      IssuedIn(entries[..n], issued) && entries[n].member.sequence <= Number(issued, entries[n].member.tag))
  }

  ghost function Overtaken(sets: Sets, issued: Counters): iset<string> {
    iset key | !IssuedIn(Entries(sets, key), issued)
  }

  /** No entry carries a later number than its instance has given out. */
  ghost predicate Issued(sets: Sets, issued: Counters) { Overtaken(sets, issued) == iset{} }

  lemma NothingChargedYet(prefix: string, policies: Policies)
    ensures SlotsOk(map[], map[], prefix, policies, 0) && Issued(map[], map[])
  {
    SlotsMean(map[], map[], prefix, policies, 0);
    assert Scores([]) == [];
    assert forall key :: key !in Overtaken(map[], map[]);
  }

  /** Rewriting one slot leaves the others as they were. */
  lemma RewriteSlot(
    sets: Sets, history: Histories, sets': Sets, history': Histories, prefix: string, policies: Policies, clock: nat,
    budget: Budget, value: string)
    requires SlotsOk(sets, history, prefix, policies, clock)
    requires policies.Has(budget) && SlotOk(sets', history', KeyOf(prefix, budget, value), policies.For(budget), clock)
    requires forall k :: k != KeyOf(prefix, budget, value) ==>
               Entries(sets', k) == Entries(sets, k) && Deadline(sets', k) == Deadline(sets, k)
                 && Charges(history', k) == Charges(history, k)
    ensures SlotsOk(sets', history', prefix, policies, clock)
  {
    SlotsMean(sets', history', prefix, policies, clock);
    forall b, v | policies.Has(b) ensures SlotOk(sets', history', KeyOf(prefix, b, v), policies.For(b), clock) {
      SlotAt(sets, history, prefix, policies, clock, b, v);
      if KeyOf(prefix, b, v) == KeyOf(prefix, budget, value) { KeysAreDistinct(prefix, b, v, budget, value); }
    }
  }

  ghost predicate InOrder(entries: seq<Scored>) {
    |entries| <= 1 || (
      var n := |entries| - 1;
      InOrder(entries[..n]) && entries[n - 1].score <= entries[n].score)
  }

  lemma {:induction false} AscendingInOrder(entries: seq<Scored>)
    requires forall i, j :: 0 <= i < j < |entries| ==> entries[i].score <= entries[j].score
    ensures InOrder(entries)
  {
    if |entries| > 1 { AscendingInOrder(entries[..|entries| - 1]); }
  }

  ghost predicate SplitBy(entries: seq<Scored>, drop: nat, max: int)
    requires drop <= |entries|
  {
    && (forall i :: 0 <= i < drop ==> entries[i].score <= max)
    && forall i :: drop <= i < |entries| ==> entries[i].score > max
  }

  /** Where the charges that have left the window end. */
  lemma {:induction false} FindDrop(entries: seq<Scored>, max: int) returns (drop: nat)
    requires InOrder(entries)
    ensures drop <= |entries| && SplitBy(entries, drop, max)
  {
    if entries == [] {
      drop := 0;
    } else {
      var n := |entries| - 1;
      drop := FindDrop(entries[..n], max);
      if entries[n].score <= max { drop := n + 1; }
    }
  }

  lemma DropLater(entries: seq<Scored>, drop: nat)
    requires drop < |entries|
    ensures entries[drop..] == entries[..|entries| - 1][drop..] + [entries[|entries| - 1]]
  {
  }

  lemma {:induction false} AboveIsRest(entries: seq<Scored>, drop: nat, max: int)
    requires drop <= |entries| && SplitBy(entries, drop, max)
    ensures Above(entries, max) == entries[drop..]
  {
    if entries != [] {
      var n := |entries| - 1;
      if drop > n {
        AboveIsRest(entries[..n], n, max);
      } else {
        AboveIsRest(entries[..n], drop, max);
        DropLater(entries, drop);
      }
    }
  }

  /** Pruning by score drops a prefix, and exactly the charges that have left the window. */
  lemma AboveIsDrop(entries: seq<Scored>, max: int) returns (drop: nat)
    requires InOrder(entries)
    ensures drop <= |entries| && Above(entries, max) == entries[drop..] && SplitBy(entries, drop, max)
  {
    drop := FindDrop(entries, max);
    AboveIsRest(entries, drop, max);
  }

  lemma ScoresAt(entries: seq<Scored>)
    ensures |Scores(entries)| == |entries| && forall i :: 0 <= i < |entries| ==> Scores(entries)[i] == entries[i].score
  {
  }

  lemma ScoresInOrder(entries: seq<Scored>)
    requires Ascending(Scores(entries))
    ensures InOrder(entries)
  {
    ScoresAt(entries);
    forall i, j | 0 <= i < j < |entries| ensures entries[i].score <= entries[j].score {
      assert Scores(entries)[i] <= Scores(entries)[j];
    }
    AscendingInOrder(entries);
  }

  lemma ScoresOfRest(entries: seq<Scored>, drop: nat)
    requires drop <= |entries|
    ensures Scores(entries[drop..]) == Scores(entries)[drop..]
  {
  }

  /** What a slot keeps is in order and not from the future. */
  lemma KeptInOrder(h: seq<nat>, kept: seq<nat>, policy: Policy, now: nat)
    requires HistoryOk(h, policy.limit, policy.windowMs, now) && Agrees(h, kept, policy.windowMs, now)
    ensures Ascending(kept) && forall i :: 0 <= i < |kept| ==> kept[i] <= now
  {
    HistoryMeans(h, policy.limit, policy.windowMs, now);
    AgreesMeans(h, kept, policy.windowMs, now);
  }

  lemma Trim(h: seq<nat>, entries: seq<Scored>, policy: Policy, now: nat) returns (drop: nat)
    requires PolicyOk(policy) && HistoryOk(h, policy.limit, policy.windowMs, now)
    requires Agrees(h, Scores(entries), policy.windowMs, now)
    ensures drop <= |entries| == |Scores(entries)| && Above(entries, now - policy.windowMs) == entries[drop..]
    ensures forall i :: 0 <= i < drop ==> !Live(Scores(entries)[i], policy.windowMs, now)
    ensures drop < |entries| ==>
              Live(Scores(entries)[drop], policy.windowMs, now) && Scores(entries)[drop] == entries[drop].score
  {
    KeptInOrder(h, Scores(entries), policy, now);
    ScoresInOrder(entries);
    drop := AboveIsDrop(entries, now - policy.windowMs);
    ScoresAt(entries);
  }

  lemma PruneEntries(h: seq<nat>, entries: seq<Scored>, policy: Policy, now: nat) returns (drop: nat)
    requires PolicyOk(policy) && HistoryOk(h, policy.limit, policy.windowMs, now)
    requires Agrees(h, Scores(entries), policy.windowMs, now)
    ensures drop <= |entries| && Above(entries, now - policy.windowMs) == entries[drop..]
    ensures Agrees(h, Scores(entries[drop..]), policy.windowMs, now)
    ensures |entries| - drop == CountLive(h, policy.windowMs, now)
    ensures drop < |entries| ==> entries[drop].score == h[|h| - (|entries| - drop)]
  {
    drop := Trim(h, entries, policy, now);
    Pruning(h, Scores(entries), drop, policy.limit, policy.windowMs, now);
    ScoresOfRest(entries, drop);
  }

  lemma PruneSlot(sets: Sets, history: Histories, key: string, policy: Policy, now: nat)
    requires PolicyOk(policy) && SlotOk(sets, history, key, policy, now)
    ensures var pruned := Put(sets, key, Above(Entries(sets, key), now - policy.windowMs));
            && SlotOk(pruned, history, key, policy, now)
            && |Entries(pruned, key)| == CountLive(Charges(history, key), policy.windowMs, now)
            && (Entries(pruned, key) != [] ==>
                  Entries(pruned, key)[0].score
                    == Charges(history, key)[|Charges(history, key)| - |Entries(pruned, key)|])
  {
    var entries := Entries(sets, key);
    var drop := PruneEntries(Charges(history, key), entries, policy, now);
    var pruned := Put(sets, key, entries[drop..]);
    assert Entries(pruned, key) == entries[drop..];
    assert drop < |entries| ==> Deadline(pruned, key) == Deadline(sets, key);
  }

  lemma {:induction false} FreshStays(entries: seq<Scored>, member: Member)
    requires forall i :: 0 <= i < |entries| ==> entries[i].member != member
    ensures Without(entries, member) == entries
  {
    if entries != [] {
      FreshStays(entries[..|entries| - 1], member);
    }
  }

  lemma ChargeEntries(h: seq<nat>, entries: seq<Scored>, policy: Policy, now: nat, member: Member)
    requires PolicyOk(policy) && HistoryOk(h, policy.limit, policy.windowMs, now)
    requires Agrees(h, Scores(entries), policy.windowMs, now) && CountLive(h, policy.windowMs, now) < policy.limit
    requires forall i :: 0 <= i < |entries| ==> entries[i].member != member
    ensures Insert(Without(entries, member), Scored(now, member)) == entries + [Scored(now, member)]
    ensures HistoryOk(h + [now], policy.limit, policy.windowMs, now)
    ensures Agrees(h + [now], Scores(entries + [Scored(now, member)]), policy.windowMs, now)
    ensures Outlives(entries + [Scored(now, member)], Some(now + policy.windowMs), policy.windowMs)
  {
    FreshStays(entries, member);
    KeptInOrder(h, Scores(entries), policy, now);
    ScoresAt(entries);
    assert |entries| > 0 ==> entries[|entries| - 1].score == Scores(entries)[|entries| - 1] <= now;
    Charging(h, Scores(entries), policy.limit, policy.windowMs, now);
    assert Scores(entries + [Scored(now, member)]) == Scores(entries) + [now];
  }

  function Charged(sets: Sets, key: string, now: nat, member: Member, windowMs: nat): Sets {
    sets[key := SortedSet(Entries(sets, key) + [Scored(now, member)], Some(now + windowMs))]
  }

  /** A charge with a fresh member adds one entry, at the end, and moves the expiry behind it. */
  lemma ChargeSlot(sets: Sets, history: Histories, key: string, policy: Policy, now: nat, member: Member)
    requires PolicyOk(policy) && SlotOk(sets, history, key, policy, now)
    requires CountLive(Charges(history, key), policy.windowMs, now) < policy.limit
    requires forall i :: 0 <= i < |Entries(sets, key)| ==> Entries(sets, key)[i].member != member
    ensures Insert(Without(Entries(sets, key), member), Scored(now, member))
              == Entries(sets, key) + [Scored(now, member)]
    ensures SlotOk(Charged(sets, key, now, member, policy.windowMs), history[key := Charges(history, key) + [now]], key,
              policy, now)
  {
    ChargeEntries(Charges(history, key), Entries(sets, key), policy, now, member);
  }

  ghost predicate Same(sets: Sets, sets': Sets, key: string) {
    Entries(sets', key) == Entries(sets, key) && Deadline(sets', key) == Deadline(sets, key)
  }

  lemma IssuedAt(sets: Sets, issued: Counters, key: string)
    requires Issued(sets, issued)
    ensures IssuedIn(Entries(sets, key), issued)
  {
    assert key !in Overtaken(sets, issued);
  }

  lemma {:induction false} IssuedMeans(entries: seq<Scored>, issued: Counters)
    ensures IssuedIn(entries, issued)
       <==> forall i :: 0 <= i < |entries| ==> entries[i].member.sequence <= Number(issued, entries[i].member.tag)
  {
    if entries != [] { IssuedMeans(entries[..|entries| - 1], issued); }
  }

  lemma PutChanges(sets: Sets, key: string, entries: seq<Scored>)
    ensures Entries(Put(sets, key, entries), key) == entries
    ensures forall k :: k != key ==> Same(sets, Put(sets, key, entries), k)
  {
  }

  lemma PruneKeepsIssued(sets: Sets, key: string, drop: nat, issued: Counters)
    requires Issued(sets, issued) && drop <= |Entries(sets, key)|
    ensures Issued(Put(sets, key, Entries(sets, key)[drop..]), issued)
  {
    var entries := Entries(sets, key);
    var pruned := Put(sets, key, entries[drop..]);
    PutChanges(sets, key, entries[drop..]);
    forall k ensures IssuedIn(Entries(pruned, k), issued) {
      IssuedAt(sets, issued, k);
      IssuedMeans(entries, issued);
      IssuedMeans(entries[drop..], issued);
      assert k != key ==> Same(sets, pruned, k);
    }
  }

  function Pruned(sets: Sets, key: string, windowMs: nat, now: nat): Sets {
    Put(sets, key, Above(Entries(sets, key), now - windowMs))
  }

  lemma PruneKey(sets: Sets, history: Histories, key: string, policy: Policy, issued: Counters, now: nat)
    requires PolicyOk(policy) && SlotOk(sets, history, key, policy, now) && Issued(sets, issued)
    ensures var pruned := Pruned(sets, key, policy.windowMs, now);
            && SlotOk(pruned, history, key, policy, now) && Issued(pruned, issued)
            && forall k :: k != key ==> Same(sets, pruned, k)
  {
    var drop := PruneEntries(Charges(history, key), Entries(sets, key), policy, now);
    PruneSlot(sets, history, key, policy, now);
    PutChanges(sets, key, Entries(sets, key)[drop..]);
    PruneKeepsIssued(sets, key, drop, issued);
  }

  /** One prune: the slot keeps exactly its live charges, every other slot is as before. */
  lemma PruneStep(
    sets: Sets, history: Histories, prefix: string, policies: Policies, issued: Counters, now: nat, budget: Budget,
    value: string)
    requires policies.Ok() && SlotsOk(sets, history, prefix, policies, now) && Issued(sets, issued)
    requires policies.Has(budget)
    ensures var key, w := KeyOf(prefix, budget, value), policies.For(budget).windowMs;
            var pruned := Pruned(sets, key, w, now);
            && SlotsOk(pruned, history, prefix, policies, now) && Issued(pruned, issued)
            && (forall k :: k != key ==> Same(sets, pruned, k))
            && |Entries(pruned, key)| == CountLive(Charges(history, key), w, now)
            && (Entries(pruned, key) != [] ==>
                  Entries(pruned, key)[0].score
                    == Charges(history, key)[|Charges(history, key)| - |Entries(pruned, key)|])
  {
    var key, policy := KeyOf(prefix, budget, value), policies.For(budget);
    SlotAt(sets, history, prefix, policies, now, budget, value);
    PruneKey(sets, history, key, policy, issued, now);
    PruneSlot(sets, history, key, policy, now);
    RewriteSlot(sets, history, Pruned(sets, key, policy.windowMs, now), history, prefix, policies, now, budget, value);
  }

  lemma AddedIsCharged(sets: Sets, key: string, now: nat, member: Member, windowMs: nat)
    requires Insert(Without(Entries(sets, key), member), Scored(now, member))
               == Entries(sets, key) + [Scored(now, member)]
    ensures Added(sets, key, now, member, windowMs) == Charged(sets, key, now, member, windowMs)
  {
  }

  function EntryKey(prefix: string, entry: Entry): string { KeyOf(prefix, entry.budget, entry.value) }

  lemma ChargeKeepsSlots(
    sets: Sets, history: Histories, prefix: string, policies: Policies, now: nat, entry: Entry, member: Member)
    requires SlotsOk(sets, history, prefix, policies, now)
    requires policies.Has(entry.budget) && entry.policy == policies.For(entry.budget)
    requires var key := EntryKey(prefix, entry);
             SlotOk(Charged(sets, key, now, member, entry.policy.windowMs),
               history[key := Charges(history, key) + [now]], key, entry.policy, now)
    ensures var key := EntryKey(prefix, entry);
            SlotsOk(Charged(sets, key, now, member, entry.policy.windowMs),
              history[key := Charges(history, key) + [now]], prefix, policies, now)
  {
    var key := EntryKey(prefix, entry);
    RewriteSlot(sets, history, Charged(sets, key, now, member, entry.policy.windowMs),
      history[key := Charges(history, key) + [now]],
      prefix, policies, now, entry.budget, entry.value);
  }

  lemma ChargedIsIssued(sets: Sets, key: string, now: nat, member: Member, windowMs: nat, issued: Counters)
    requires Issued(sets, issued) && member.sequence <= Number(issued, member.tag)
    ensures Issued(Charged(sets, key, now, member, windowMs), issued)
  {
    var charged := Charged(sets, key, now, member, windowMs);
    forall k ensures IssuedIn(Entries(charged, k), issued) {
      IssuedAt(sets, issued, k);
      assert (Entries(sets, key) + [Scored(now, member)])[..|Entries(sets, key)|] == Entries(sets, key);
    }
  }

  /**
   * One charge of a fresh, issued member: its slot has one more entry and one more charge, the others are
   * as before.
   */
  lemma ChargeStep(
    sets: Sets, history: Histories, prefix: string, policies: Policies, past: Counters, issued: Counters, now: nat,
    entry: Entry,
    member: Member)
    requires policies.Ok() && SlotsOk(sets, history, prefix, policies, now) && Issued(sets, issued)
    requires policies.Has(entry.budget) && entry.policy == policies.For(entry.budget)
    requires CountLive(Charges(history, EntryKey(prefix, entry)), entry.policy.windowMs, now) < entry.policy.limit
    requires Number(past, member.tag) < member.sequence <= Number(issued, member.tag)
    requires IssuedIn(Entries(sets, EntryKey(prefix, entry)), past)
    ensures var key := EntryKey(prefix, entry);
            var added, history' :=
              Added(sets, key, now, member, entry.policy.windowMs), history[key := Charges(history, key) + [now]];
            && SlotsOk(added, history', prefix, policies, now) && Issued(added, issued)
            && |Entries(added, key)| == |Entries(sets, key)| + 1
            && forall k :: k != key ==> Same(sets, added, k)
  {
    var key, w := EntryKey(prefix, entry), entry.policy.windowMs;
    SlotAt(sets, history, prefix, policies, now, entry.budget, entry.value);
    IssuedMeans(Entries(sets, key), past);
    ChargeSlot(sets, history, key, entry.policy, now, member);
    AddedIsCharged(sets, key, now, member, w);
    ChargeKeepsSlots(sets, history, prefix, policies, now, entry, member);
    ChargedIsIssued(sets, key, now, member, w, issued);
  }

  ghost predicate Planned(plan: seq<Entry>, policies: Policies) {
    && NoBudgetTwice(plan)
    && forall i :: 0 <= i < |plan| ==>
         policies.Has(plan[i].budget) && plan[i].policy == policies.For(plan[i].budget) && PolicyOk(plan[i].policy)
  }

  ghost predicate Answer(verdict: RateLimitResult, h: seq<nat>, policy: Policy, now: nat) {
    policy.limit >= 1 && HistoryOk(h, policy.limit, policy.windowMs, now)
      && verdict == Verdict(h, policy.limit, policy.windowMs, now, false)
  }

  /** What the full history says about every planned budget. */
  ghost predicate Answers(
    verdicts: seq<RateLimitResult>, history: Histories, prefix: string, plan: seq<Entry>, now: nat)
  {
    && |verdicts| == |plan|
    && forall i ::
         0 <= i < |plan| ==> Answer(verdicts[i], Charges(history, EntryKey(prefix, plan[i])), plan[i].policy, now)
  }

  lemma {:induction false} AnswersExist(
    history: Histories, sets: Sets, prefix: string, policies: Policies, plan: seq<Entry>, now: nat)
    returns (verdicts: seq<RateLimitResult>)
    requires Planned(plan, policies) && SlotsOk(sets, history, prefix, policies, now)
    ensures Answers(verdicts, history, prefix, plan, now)
  {
    if plan == [] {
      verdicts := [];
    } else {
      var n := |plan| - 1;
      var rest := AnswersExist(history, sets, prefix, policies, plan[..n], now);
      var entry := plan[n];
      SlotAt(sets, history, prefix, policies, now, entry.budget, entry.value);
      verdicts :=
        rest
          + [Verdict(Charges(history, EntryKey(prefix, entry)), entry.policy.limit, entry.policy.windowMs, now, false)];
    }
  }

  datatype Reply = Reply(allowed: bool, index: nat, remaining: int, retry: nat)

  /** The first `n` planned budgets have room after `seen` charges each. */
  ghost predicate HaveRoom(plan: seq<Entry>, seen: seq<nat>, n: nat)
    requires n <= |plan| == |seen|
  {
    forall j :: 0 <= j < n ==> seen[j] < plan[j].policy.limit
  }

  /** The least that remains of the first `n` planned budgets; nothing asked yet is -1. */
  ghost predicate Least(plan: seq<Entry>, seen: seq<nat>, n: nat, least: int)
    requires n <= |plan| == |seen|
  {
    if n == 0 then least == -1
    else
      && (forall j :: 0 <= j < n ==> least <= plan[j].policy.limit - seen[j])
      && exists j :: 0 <= j < n && least == plan[j].policy.limit - seen[j]
  }

  lemma LeastStep(plan: seq<Entry>, seen: seq<nat>, i: nat, least: int)
    requires i < |plan| == |seen| && Least(plan, seen, i, least)
    ensures var remaining := plan[i].policy.limit - seen[i];
            Least(plan, seen, i + 1, if i == 0 || remaining < least then remaining else least)
  {
    if i > 0 {
      var j :| 0 <= j < i && least == plan[j].policy.limit - seen[j];
      assert j < i + 1;
    }
  }

  /** The first budget that is used up refuses, without a wait; otherwise the tightest is reported. */
  ghost predicate CheckReplies(plan: seq<Entry>, seen: seq<nat>, reply: Reply)
    requires |plan| == |seen|
  {
    if HaveRoom(plan, seen, |plan|) then
      reply.allowed && reply.index == 0 && reply.retry == 0 && Least(plan, seen, |plan|, reply.remaining)
    else
      && 1 <= reply.index <= |plan| && reply == Reply(false, reply.index, 0, 0)
      && HaveRoom(plan, seen, reply.index - 1) && seen[reply.index - 1] >= plan[reply.index - 1].policy.limit
  }

  function CheckReply(plan: seq<Entry>, i: nat, least: int): Reply {
    if i < |plan| then Reply(false, i + 1, 0, 0) else Reply(true, 0, least, 0)
  }

  lemma ReplyIsRight(plan: seq<Entry>, seen: seq<nat>, i: nat, least: int)
    requires i <= |plan| == |seen| && HaveRoom(plan, seen, i) && Least(plan, seen, i, least)
    requires i < |plan| ==> seen[i] >= plan[i].policy.limit
    ensures CheckReplies(plan, seen, CheckReply(plan, i, least))
  {
  }

  /** Entries that left the window at this very moment. */
  ghost function OnEdge(entries: seq<Scored>, min: int): nat {
    if entries == [] then 0
    else OnEdge(entries[..|entries| - 1], min) + if entries[|entries| - 1].score == min then 1 else 0
  }

  lemma {:induction false} CountAbove(entries: seq<Scored>, min: int)
    ensures ScoredFrom(entries, min) == |Above(entries, min)| + OnEdge(entries, min)
  {
    if entries != [] { CountAbove(entries[..|entries| - 1], min); }
  }

  lemma CountedByCheck(h: seq<nat>, entries: seq<Scored>, policy: Policy, now: nat)
    requires PolicyOk(policy) && HistoryOk(h, policy.limit, policy.windowMs, now)
    requires Agrees(h, Scores(entries), policy.windowMs, now)
    ensures ScoredFrom(entries, now - policy.windowMs)
         == CountLive(h, policy.windowMs, now) + OnEdge(entries, now - policy.windowMs)
  {
    var drop := PruneEntries(h, entries, policy, now);
    CountAbove(entries, now - policy.windowMs);
  }

  function Max(a: int, b: int): int { if a < b then b else a }

  /** How a reply of the script is reported. */
  function Outcome(plan: seq<Entry>, reply: Reply): QuotaResult
    requires reply.index <= |plan| && |plan| >= 1
  {
    var entry := plan[Max(0, reply.index - 1)];
    QuotaResult(
      RateLimitResult(reply.allowed, if reply.allowed then Max(0, reply.remaining) else 0,
        if reply.allowed then 0 else reply.retry,
        entry.policy.limit, entry.policy.windowMs),
      Reported(entry.budget))
  }

  /** The answer of the shared store for a decided request. */
  ghost function Answered(plan: seq<Entry>, verdicts: seq<RateLimitResult>, decider: nat): QuotaResult
    requires Decides(verdicts, decider) && |plan| == |verdicts|
  {
    if AllAllow(verdicts) then
      QuotaResult(
        Report(plan[decider], verdicts[decider], true).verdict.(limit := plan[0].policy.limit,
          windowMs := plan[0].policy.windowMs),
        Reported(plan[0].budget))
    else
      Report(plan[decider], verdicts[decider], false)
  }

  ghost function Left(plan: seq<Entry>, live: seq<nat>, i: nat): int
    requires i < |plan| == |live|
  {
    plan[i].policy.limit - live[i] - 1
  }

  ghost predicate Agreeing(verdict: RateLimitResult, entry: Entry, live: nat) {
    && (verdict.allowed <==> live < entry.policy.limit)
    && verdict.limit == entry.policy.limit && verdict.windowMs == entry.policy.windowMs
    && (verdict.allowed ==> verdict.remaining == entry.policy.limit - live && verdict.retryAfterMs == 0)
    && (!verdict.allowed ==> verdict.remaining == 0)
  }

  lemma OutcomeIsAnswered(plan: seq<Entry>, verdicts: seq<RateLimitResult>, decider: nat, live: seq<nat>, reply: Reply)
    requires |plan| == |verdicts| == |live| >= 1 && reply.index <= |plan| && Decides(verdicts, decider)
    requires (reply.allowed <==> AllAllow(verdicts)) && Agreeing(verdicts[decider], plan[decider], live[decider])
    requires reply.allowed ==> reply.index == 0 && reply.remaining == Left(plan, live, decider)
    requires !reply.allowed ==>
               !verdicts[decider].allowed && decider == reply.index - 1 && reply.retry == verdicts[decider].retryAfterMs
    ensures Outcome(plan, reply) == Answered(plan, verdicts, decider)
  {
  }

  /** The budget is used up, and `retry` is the wait for its oldest live charge. */
  ghost predicate Refused(entry: Entry, h: seq<nat>, now: nat, used: nat, retry: nat) {
    |h| >= used >= entry.policy.limit >= 1 && retry == Max(0, h[|h| - used] + entry.policy.windowMs - now)
  }

  /** An instance stores members with a new number, or nobody stores any. */
  ghost predicate NumbersMove(before: Counters, after: Counters, tag: nat, sequence: nat) {
    after == before || after == before[tag := sequence]
  }

  lemma IssuedLater(sets: Sets, issued: Counters, tag: nat, sequence: nat)
    requires Issued(sets, issued) && Number(issued, tag) <= sequence
    ensures Issued(sets, issued[tag := sequence])
  {
    forall key ensures IssuedIn(Entries(sets, key), issued[tag := sequence]) {
      IssuedAt(sets, issued, key);
      IssuedMeans(Entries(sets, key), issued);
      IssuedMeans(Entries(sets, key), issued[tag := sequence]);
    }
  }

  /** The passing of time and the expiry of whole keys keep every slot. */
  lemma ReapKeeps(
    sets: Sets, history: Histories, prefix: string, policies: Policies, clock: nat, now: nat, issued: Counters)
    requires policies.Ok() && SlotsOk(sets, history, prefix, policies, clock) && clock <= now && Issued(sets, issued)
    ensures SlotsOk(Reaped(sets, now), history, prefix, policies, now) && Issued(Reaped(sets, now), issued)
  {
    SlotsMean(Reaped(sets, now), history, prefix, policies, now);
    forall b, v | policies.Has(b)
      ensures SlotOk(Reaped(sets, now), history, KeyOf(prefix, b, v), policies.For(b), now)
    {
      SlotAt(sets, history, prefix, policies, clock, b, v);
      ReapKeepsSlot(sets, history, KeyOf(prefix, b, v), policies.For(b), clock, now);
    }
    forall key ensures IssuedIn(Entries(Reaped(sets, now), key), issued) {
      IssuedAt(sets, issued, key);
    }
  }

  lemma PlanIsPlanned(plan: seq<Entry>, policies: Policies, identity: Identity)
    requires NoBudgetTwice(plan) && EntriesOf(plan, policies, identity) && PoliciesOk(plan)
    ensures Planned(plan, policies)
  {
    forall i | 0 <= i < |plan|
      ensures policies.Has(plan[i].budget) && plan[i].policy == policies.For(plan[i].budget) && PolicyOk(plan[i].policy)
    {
      assert EntryOf(plan[i], policies, identity);
    }
  }

  lemma VerdictAllows(verdict: RateLimitResult, h: seq<nat>, policy: Policy, now: nat)
    requires Answer(verdict, h, policy, now)
    ensures var live := CountLive(h, policy.windowMs, now);
            && (verdict.allowed <==> live < policy.limit)
            && verdict.limit == policy.limit && verdict.windowMs == policy.windowMs
            && (live < policy.limit ==> verdict.remaining == policy.limit - live && verdict.retryAfterMs == 0)
            && (live >= policy.limit ==>
                 verdict.remaining == 0 && verdict.retryAfterMs == Max(0, h[|h| - live] + policy.windowMs - now))
  {
    if CountLive(h, policy.windowMs, now) >= policy.limit { OldestIsLive(h, policy.limit, policy.windowMs, now); }
  }

  /** The first `n` planned budgets are charged once. */
  ghost function ChargedAll(history: Histories, prefix: string, plan: seq<Entry>, n: nat, now: nat): Histories
    requires n <= |plan|
  {
    if n == 0 then history
    else
      var rest, key := ChargedAll(history, prefix, plan, n - 1, now), EntryKey(prefix, plan[n - 1]);
      rest[key := Charges(rest, key) + [now]]
  }

  ghost predicate PlannedKey(prefix: string, plan: seq<Entry>, n: nat, key: string)
    requires n <= |plan|
  {
    n > 0 && (EntryKey(prefix, plan[n - 1]) == key || PlannedKey(prefix, plan, n - 1, key))
  }

  lemma {:induction false} PlannedKeyMeans(prefix: string, plan: seq<Entry>, n: nat, key: string)
    requires n <= |plan|
    ensures PlannedKey(prefix, plan, n, key) <==> exists i :: 0 <= i < n && EntryKey(prefix, plan[i]) == key
  {
    if n > 0 { PlannedKeyMeans(prefix, plan, n - 1, key); }
  }

  ghost function KeysOf(prefix: string, plan: seq<Entry>): (keys: seq<string>)
    ensures |keys| == |plan| && forall i :: 0 <= i < |plan| ==> keys[i] == EntryKey(prefix, plan[i])
  {
    seq(|plan|, i requires 0 <= i < |plan| => EntryKey(prefix, plan[i]))
  }

  /** The first `n` keys are charged once. */
  ghost function ChargedKeys(history: Histories, keys: seq<string>, n: nat, now: nat): Histories
    requires n <= |keys|
  {
    if n == 0 then history
    else
      var rest := ChargedKeys(history, keys, n - 1, now);
      rest[keys[n - 1] := Charges(rest, keys[n - 1]) + [now]]
  }

  ghost predicate Among(keys: seq<string>, n: nat, key: string)
    requires n <= |keys|
  {
    n > 0 && (keys[n - 1] == key || Among(keys, n - 1, key))
  }

  lemma {:induction false} AmongMeans(keys: seq<string>, n: nat, key: string)
    requires n <= |keys|
    ensures Among(keys, n, key) <==> exists i :: 0 <= i < n && keys[i] == key
  {
    if n > 0 { AmongMeans(keys, n - 1, key); }
  }

  lemma {:induction false} KeysChargedOnce(history: Histories, keys: seq<string>, n: nat, now: nat, key: string)
    requires n <= |keys| && forall i, j :: 0 <= i < j < |keys| ==> keys[i] != keys[j]
    ensures Charges(ChargedKeys(history, keys, n, now), key)
              == Charges(history, key) + if Among(keys, n, key) then [now] else []
  {
    assert Charges(history, key) + [] == Charges(history, key);
    if n > 0 {
      KeysChargedOnce(history, keys, n - 1, now, key);
      if keys[n - 1] == key { AmongMeans(keys, n - 1, key); }
    }
  }

  lemma {:induction false} SameCharges(
    history: Histories, prefix: string, plan: seq<Entry>, keys: seq<string>, n: nat, now: nat)
    requires keys == KeysOf(prefix, plan) && n <= |plan|
    ensures ChargedAll(history, prefix, plan, n, now) == ChargedKeys(history, keys, n, now)
  {
    if n > 0 { SameCharges(history, prefix, plan, keys, n - 1, now); }
  }

  lemma {:induction false} SamePlanned(prefix: string, plan: seq<Entry>, keys: seq<string>, n: nat, key: string)
    requires keys == KeysOf(prefix, plan) && n <= |plan|
    ensures PlannedKey(prefix, plan, n, key) <==> Among(keys, n, key)
  {
    if n > 0 { SamePlanned(prefix, plan, keys, n - 1, key); }
  }

  lemma DistinctEntries(prefix: string, plan: seq<Entry>, i: nat, j: nat)
    requires NoBudgetTwice(plan) && i < j < |plan|
    ensures EntryKey(prefix, plan[i]) != EntryKey(prefix, plan[j])
  {
    if EntryKey(prefix, plan[i]) == EntryKey(prefix, plan[j]) {
      KeysAreDistinct(prefix, plan[i].budget, plan[i].value, plan[j].budget, plan[j].value);
      assert false;
    }
  }

  /** Planned keys get exactly one charge more, and no other key changes. */
  lemma {:induction false} ChargedOnce(
    history: Histories, prefix: string, plan: seq<Entry>, n: nat, now: nat, key: string)
    requires NoBudgetTwice(plan) && n <= |plan|
    ensures Charges(ChargedAll(history, prefix, plan, n, now), key)
         == Charges(history, key) + if PlannedKey(prefix, plan, n, key) then [now] else []
  {
    var keys := KeysOf(prefix, plan);
    forall i, j | 0 <= i < j < |keys| ensures keys[i] != keys[j] { DistinctEntries(prefix, plan, i, j); }
    KeysChargedOnce(history, keys, n, now, key);
    SameCharges(history, prefix, plan, keys, n, now);
    SamePlanned(prefix, plan, keys, n, key);
  }

  /** A planned budget that is ready to be charged: trimmed, with room, and no member of this request in it. */
  ghost predicate Room(
    sets: Sets, history: Histories, prefix: string, entry: Entry, past: Counters, now: nat, live: nat)
  {
    var key := EntryKey(prefix, entry);
    && |Entries(sets, key)| == CountLive(Charges(history, key), entry.policy.windowMs, now) == live < entry.policy.limit
    && IssuedIn(Entries(sets, key), past)
  }

  lemma RoomStays(
    sets: Sets, history: Histories, sets': Sets, history': Histories, prefix: string, entry: Entry, past: Counters,
    now: nat, live: nat)
    requires Room(sets, history, prefix, entry, past, now, live)
    requires Same(sets, sets', EntryKey(prefix, entry))
    requires Charges(history', EntryKey(prefix, entry)) == Charges(history, EntryKey(prefix, entry))
    ensures Room(sets', history', prefix, entry, past, now, live)
  {
  }

  /** The first entry, counted from 1, of those with the least left after one more charge. */
  ghost predicate Tightest(plan: seq<Entry>, live: seq<nat>, n: nat, tightest: nat, remaining: int)
    requires |live| == |plan| >= n
  {
    && 1 <= tightest <= n && remaining == Left(plan, live, tightest - 1)
    && (forall j :: 0 <= j < n ==> remaining <= Left(plan, live, j))
    && forall j :: 0 <= j < tightest - 1 ==> remaining < Left(plan, live, j)
  }

  /** Charging one entry leaves room for those behind it. */
  lemma RoomBehind(
    sets: Sets, history: Histories, sets': Sets, history': Histories, prefix: string, plan: seq<Entry>, i: nat,
    now: nat, live: seq<nat>,
    past: Counters)
    requires NoBudgetTwice(plan) && i < |plan| == |live|
    requires forall j :: i <= j < |plan| ==> Room(sets, history, prefix, plan[j], past, now, live[j])
    requires forall k ::
               k != EntryKey(prefix, plan[i]) ==> Same(sets, sets', k) && Charges(history', k) == Charges(history, k)
    ensures forall j :: i < j < |plan| ==> Room(sets', history', prefix, plan[j], past, now, live[j])
  {
    forall j | i < j < |plan| ensures Room(sets', history', prefix, plan[j], past, now, live[j]) {
      DistinctEntries(prefix, plan, i, j);
      RoomStays(sets, history, sets', history', prefix, plan[j], past, now, live[j]);
    }
  }

  lemma TightestStep(plan: seq<Entry>, live: seq<nat>, i: nat, tightest: nat, least: int, remaining: int)
    requires |live| == |plan| && i < |plan| && remaining == Left(plan, live, i)
    requires i > 0 ==> Tightest(plan, live, i, tightest, least)
    ensures if i == 0 || remaining < least
            then Tightest(plan, live, i + 1, i + 1, remaining)
            else Tightest(plan, live, i + 1, tightest, least)
  {
  }

  /** What the script replies is what the first denial, or else the tightest budget, says. */
  lemma ReplyDecides(
    verdicts: seq<RateLimitResult>, history: Histories, prefix: string, plan: seq<Entry>, now: nat, live: seq<nat>,
    reply: Reply, tightest: nat)
    returns (decider: nat)
    requires Answers(verdicts, history, prefix, plan, now) && |live| == |plan| >= 1
    requires forall i ::
               0 <= i < |plan| ==>
                 live[i] == CountLive(Charges(history, EntryKey(prefix, plan[i])), plan[i].policy.windowMs, now)
    requires reply.allowed ==>
               && (forall i :: 0 <= i < |plan| ==> live[i] < plan[i].policy.limit)
               && Tightest(plan, live, |plan|, tightest, reply.remaining)
    requires !reply.allowed ==>
               && 1 <= reply.index <= |plan|
               && (forall j :: 0 <= j < reply.index - 1 ==> live[j] < plan[j].policy.limit)
               && Refused(plan[reply.index - 1], Charges(history, EntryKey(prefix, plan[reply.index - 1])), now,
                    live[reply.index - 1], reply.retry)
    ensures Decides(verdicts, decider) && (reply.allowed <==> AllAllow(verdicts))
    ensures Agreeing(verdicts[decider], plan[decider], live[decider])
    ensures reply.allowed ==> decider == tightest - 1
    ensures !reply.allowed ==>
              !verdicts[decider].allowed && decider == reply.index - 1 && reply.retry == verdicts[decider].retryAfterMs
  {
    forall i | 0 <= i < |plan| ensures Agreeing(verdicts[i], plan[i], live[i]) {
      VerdictAllows(verdicts[i], Charges(history, EntryKey(prefix, plan[i])), plan[i].policy, now);
    }
    decider := if reply.allowed then tightest - 1 else reply.index - 1;
    VerdictAllows(verdicts[decider], Charges(history, EntryKey(prefix, plan[decider])), plan[decider].policy, now);
    if reply.allowed {
      forall j | 0 <= j < |plan| ensures verdicts[j].remaining == Left(plan, live, j) + 1 {
        assert Agreeing(verdicts[j], plan[j], live[j]);
      }
    } else {
      assert !verdicts[decider].allowed;
    }
  }

  /** The first `n` planned keys hold their live charges and nothing else, and their budgets have room. */
  ghost predicate TrimmedTo(sets: Sets, prefix: string, plan: seq<Entry>, n: nat, live: seq<nat>)
    requires |live| == |plan| >= n
  {
    n == 0 || (
      && |Entries(sets, EntryKey(prefix, plan[n - 1]))| == live[n - 1] < plan[n - 1].policy.limit
      && TrimmedTo(sets, prefix, plan, n - 1, live))
  }

  lemma {:induction false} TrimmedMeans(sets: Sets, prefix: string, plan: seq<Entry>, n: nat, live: seq<nat>, j: nat)
    requires |live| == |plan| >= n > j && TrimmedTo(sets, prefix, plan, n, live)
    ensures |Entries(sets, EntryKey(prefix, plan[j]))| == live[j] < plan[j].policy.limit
  {
    if j < n - 1 { TrimmedMeans(sets, prefix, plan, n - 1, live, j); }
  }

  lemma {:induction false} TrimmedStays(
    sets: Sets, sets': Sets, prefix: string, plan: seq<Entry>, n: nat, i: nat, live: seq<nat>)
    requires |live| == |plan| > i >= n && TrimmedTo(sets, prefix, plan, n, live) && NoBudgetTwice(plan)
    requires forall k :: k != EntryKey(prefix, plan[i]) ==> Same(sets, sets', k)
    ensures TrimmedTo(sets', prefix, plan, n, live)
  {
    if n > 0 {
      TrimmedStays(sets, sets', prefix, plan, n - 1, i, live);
      DistinctEntries(prefix, plan, n - 1, i);
      assert Same(sets, sets', EntryKey(prefix, plan[n - 1]));
    }
  }

  class RedisQuotaRateLimiter {
    const server: RedisServer
    const policies: Policies
    const order: seq<Dimension>
    const prefix: string
    const instanceTag: nat
    var sequence: nat

    /** The store is sound. */
    ghost predicate Holds(clock: nat)
      reads server
    {
      SlotsOk(server.sets, server.history, prefix, policies, clock) && Issued(server.sets, server.issued)
    }

    ghost predicate Valid(clock: nat)
      reads this, server
    {
      OrderOf(order, policies) && Holds(clock) && Number(server.issued, instanceTag) <= sequence
    }

    /** Every charge of an identity's value against a budget, by any instance. */
    ghost function ChargesOf(budget: Budget, value: string): seq<nat>
      reads server`history
    {
      Charges(server.history, KeyOf(prefix, budget, value))
    }

    /** A new instance, on a new server or beside others; its tag is one that nobody has used. */
    constructor (server: RedisServer, policies: Policies, prefix: string, instanceTag: nat, ghost clock: nat)
      requires policies.Ok() && SlotsOk(server.sets, server.history, prefix, policies, clock)
      requires Issued(server.sets, server.issued) && instanceTag !in server.issued
      ensures Valid(clock) && this.instanceTag == instanceTag && this.server == server && this.policies == policies
      ensures this.prefix == prefix
      ensures this.order == Configured(DIMENSIONS, policies.dimensions)
    {
      this.server, this.policies, this.prefix, this.instanceTag := server, policies, prefix, instanceTag;
      order := Configured(DIMENSIONS, policies.dimensions);
      sequence := 0;
      OrderIsExact(policies.dimensions);
    }

    /** Prunes one key and counts what is left: the live charges of the full history. */
    method PruneOne(budget: Budget, value: string, now: nat) returns (used: nat)
      requires policies.Ok() && Holds(now) && policies.Has(budget)
      modifies server`sets
      ensures Holds(now)
      ensures var key, w := KeyOf(prefix, budget, value), policies.For(budget).windowMs;
              && used == |Entries(server.sets, key)| == CountLive(ChargesOf(budget, value), w, now)
              && (used > 0 ==>
                   Entries(server.sets, key)[0].score == ChargesOf(budget, value)[|ChargesOf(budget, value)| - used])
              && forall k :: k != key ==> Same(old(server.sets), server.sets, k)
    {
      var key, policy := KeyOf(prefix, budget, value), policies.For(budget);
      PruneStep(server.sets, server.history, prefix, policies, server.issued, now, budget, value);
      used := server.Trim(key, now - policy.windowMs);
    }

    /** How many charges of a planned budget are live. */
    ghost function LiveCharges(entry: Entry, now: nat): nat
      reads server`history
    {
      CountLive(ChargesOf(entry.budget, entry.value), entry.policy.windowMs, now)
    }

    /** `live` holds the live charges of every planned budget. */
    ghost predicate Counted(plan: seq<Entry>, now: nat, live: seq<nat>)
      reads server`history
    {
      |live| == |plan| && forall i :: 0 <= i < |plan| ==> live[i] == LiveCharges(plan[i], now)
    }

    ghost function LiveOf(plan: seq<Entry>, now: nat): (live: seq<nat>)
      reads server`history
      ensures Counted(plan, now, live)
    {
      if plan == [] then [] else LiveOf(plan[..|plan| - 1], now) + [LiveCharges(plan[|plan| - 1], now)]
    }

    /** The planned key holds its live charges and nothing else. */
    ghost predicate Trimmed(entry: Entry, now: nat)
      reads server
    {
      |Entries(server.sets, EntryKey(prefix, entry))| == LiveCharges(entry, now)
    }

    /** The first `n` planned keys are trimmed, and their budgets have room. */
    ghost predicate AllTrimmed(plan: seq<Entry>, n: nat, live: seq<nat>)
      requires |live| == |plan| >= n
      reads server
    {
      TrimmedTo(server.sets, prefix, plan, n, live)
    }

    /** The key holds its last `used` charges, the oldest of them first. */
    ghost predicate Headed(entry: Entry, used: nat)
      reads server
    {
      var entries, h := Entries(server.sets, EntryKey(prefix, entry)), ChargesOf(entry.budget, entry.value);
      |entries| == used <= |h| && (used > 0 ==> entries[0].score == h[|h| - used])
    }

    /** One step of pass one. */
    method PruneNext(plan: seq<Entry>, i: nat, now: nat, ghost live: seq<nat>) returns (used: nat)
      requires policies.Ok() && Holds(now) && Planned(plan, policies) && i < |plan| && Counted(plan, now, live)
      requires AllTrimmed(plan, i, live)
      modifies server`sets
      ensures Holds(now) && AllTrimmed(plan, i, live)
      ensures used == live[i] && Headed(plan[i], used)
      ensures used < plan[i].policy.limit ==> AllTrimmed(plan, i + 1, live)
    {
      ghost var before := server.sets;
      used := PruneOne(plan[i].budget, plan[i].value, now);
      TrimmedStays(before, server.sets, prefix, plan, i, i, live);
    }

    /** Prunes key after key up to the first that is used up. */
    method FirstFull(plan: seq<Entry>, now: nat, ghost live: seq<nat>) returns (i: nat, used: nat)
      requires policies.Ok() && Holds(now) && Planned(plan, policies) && Counted(plan, now, live)
      modifies server`sets
      ensures Holds(now) && i <= |plan| && AllTrimmed(plan, i, live)
      ensures i < |plan| ==> used == live[i] >= plan[i].policy.limit && Headed(plan[i], used)
    {
      i, used := 0, 0;
      while i < |plan|
        invariant i <= |plan| && Holds(now) && AllTrimmed(plan, i, live)
      {
        used := PruneNext(plan, i, now, live);
        if used >= plan[i].policy.limit { return; }
        i := i + 1;
      }
    }

    /** The wait for the oldest entry of a key that is used up. */
    method RetryAfter(entry: Entry, used: nat, now: nat) returns (retry: nat)
      requires Headed(entry, used) && used >= entry.policy.limit >= 1
      ensures Refused(entry, ChargesOf(entry.budget, entry.value), now, used, retry)
    {
      var oldest := server.ZRangeFirst(EntryKey(prefix, entry));
      retry := 0;
      if oldest.Some? { retry := Max(0, oldest.value + entry.policy.windowMs - now); }
    }

    /** Pass one: prune and decide, in precedence order. */
    method PassOne(plan: seq<Entry>, now: nat, ghost live: seq<nat>) returns (denial: Option<Reply>)
      requires policies.Ok() && Holds(now) && Planned(plan, policies) && Counted(plan, now, live)
      modifies server`sets
      ensures Holds(now)
      ensures denial.None? ==> AllTrimmed(plan, |plan|, live)
      ensures denial.Some? ==>
                var r := denial.value;
                && 1 <= r.index <= |plan| && r == Reply(false, r.index, 0, r.retry)
                && (forall j :: 0 <= j < r.index - 1 ==> live[j] < plan[j].policy.limit)
                && Refused(plan[r.index - 1], ChargesOf(plan[r.index - 1].budget, plan[r.index - 1].value), now,
                     live[r.index - 1], r.retry)
    {
      var i, used := FirstFull(plan, now, live);
      if i == |plan| { return None; }
      forall j | 0 <= j < i ensures live[j] < plan[j].policy.limit {
        TrimmedMeans(server.sets, prefix, plan, i, live, j);
      }
      var retry := RetryAfter(plan[i], used, now);
      denial := Some(Reply(false, i + 1, 0, retry));
    }

    /** Charges one trimmed key: one more entry, which outlives its window. */
    method ChargeOne(entry: Entry, now: nat, member: Member, ghost past: Counters) returns (used: nat)
      requires policies.Ok() && Holds(now) && policies.Has(entry.budget) && entry.policy == policies.For(entry.budget)
      requires Trimmed(entry, now) && LiveCharges(entry, now) < entry.policy.limit
      requires Number(past, member.tag) < member.sequence <= Number(server.issued, member.tag)
      requires IssuedIn(Entries(server.sets, EntryKey(prefix, entry)), past)
      modifies server`sets, server`history
      ensures Holds(now)
      ensures server.history
                == old(server.history)[EntryKey(prefix, entry) := old(ChargesOf(entry.budget, entry.value)) + [now]]
      ensures forall k :: k != EntryKey(prefix, entry) ==> Same(old(server.sets), server.sets, k)
      ensures used == old(LiveCharges(entry, now)) + 1
    {
      var key := EntryKey(prefix, entry);
      ChargeStep(server.sets, server.history, prefix, policies, past, server.issued, now, entry, member);
      used := server.Charge(key, now, member, entry.policy.windowMs);
    }

    /** Every planned budget from position `from` on is ready to be charged. */
    ghost predicate AllRoom(plan: seq<Entry>, from: nat, now: nat, live: seq<nat>, past: Counters)
      requires |live| == |plan|
      reads server
    {
      forall j :: from <= j < |plan| ==> Room(server.sets, server.history, prefix, plan[j], past, now, live[j])
    }

    /** One step of pass two. */
    method ChargeNext(
      plan: seq<Entry>, i: nat, now: nat, ghost live: seq<nat>, ghost past: Counters, ghost start: Histories)
      returns (remaining: int)
      requires policies.Ok() && Holds(now) && Planned(plan, policies) && i < |plan| == |live|
      requires AllRoom(plan, i, now, live, past)
      requires server.history == ChargedAll(start, prefix, plan, i, now)
      requires Number(past, instanceTag) < sequence <= Number(server.issued, instanceTag)
      modifies server`sets, server`history
      ensures Holds(now) && AllRoom(plan, i + 1, now, live, past)
      ensures server.history == ChargedAll(start, prefix, plan, i + 1, now)
      ensures remaining == Left(plan, live, i)
    {
      ghost var before, history := server.sets, server.history;
      assert Room(before, history, prefix, plan[i], past, now, live[i]);
      var used := ChargeOne(plan[i], now, Member(instanceTag, sequence, now, i + 1), past);
      RoomBehind(before, history, server.sets, server.history, prefix, plan, i, now, live, past);
      remaining := plan[i].policy.limit - used;
    }

    /** The tighter of what was found so far and the budget just charged. */
    method KeepTightest(
      plan: seq<Entry>, ghost live: seq<nat>, i: nat, tightest: nat, tightestRemaining: int, remaining: int)
      returns (position: nat, least: int)
      requires |live| == |plan| && i < |plan| && remaining == Left(plan, live, i)
      requires i > 0 ==> Tightest(plan, live, i, tightest, tightestRemaining)
      ensures Tightest(plan, live, i + 1, position, least)
    {
      TightestStep(plan, live, i, tightest, tightestRemaining, remaining);
      position, least := tightest, tightestRemaining;
      if i == 0 || remaining < tightestRemaining { position, least := i + 1, remaining; }
    }

    /** Pass two: charge every planned budget, and find the tightest. */
    method PassTwo(plan: seq<Entry>, now: nat, ghost live: seq<nat>, ghost past: Counters)
      returns (tightest: nat, tightestRemaining: int)
      requires policies.Ok() && Holds(now) && Planned(plan, policies) && |live| == |plan| >= 1
      requires AllRoom(plan, 0, now, live, past)
      requires Number(past, instanceTag) < sequence <= Number(server.issued, instanceTag)
      modifies server`sets, server`history
      ensures Holds(now)
      ensures Tightest(plan, live, |plan|, tightest, tightestRemaining)
      ensures server.history == ChargedAll(old(server.history), prefix, plan, |plan|, now)
    {
      tightest, tightestRemaining := 1, -1;
      for i := 0 to |plan|
        invariant Holds(now) && AllRoom(plan, i, now, live, past)
        invariant server.history == ChargedAll(old(server.history), prefix, plan, i, now)
        invariant i > 0 ==> Tightest(plan, live, i, tightest, tightestRemaining)
      {
        var remaining := ChargeNext(plan, i, now, live, past, old(server.history));
        tightest, tightestRemaining := KeepTightest(plan, live, i, tightest, tightestRemaining, remaining);
      }
    }

    /** One run of the script: prune and decide, then charge everything or nothing. */
    method QuotaScript(plan: seq<Entry>, now: nat, ghost live: seq<nat>) returns (reply: Reply, ghost tightest: nat)
      requires policies.Ok() && Holds(now) && Planned(plan, policies) && |plan| >= 1 && Counted(plan, now, live)
      requires Number(server.issued, instanceTag) < sequence
      modifies server
      ensures Holds(now) && NumbersMove(old(server.issued), server.issued, instanceTag, sequence)
      ensures reply.allowed ==>
                && reply.index == 0 && reply.retry == 0
                && (forall i :: 0 <= i < |plan| ==> live[i] < plan[i].policy.limit)
                && Tightest(plan, live, |plan|, tightest, reply.remaining)
                && server.history == ChargedAll(old(server.history), prefix, plan, |plan|, now)
      ensures !reply.allowed ==>
                && 1 <= reply.index <= |plan| && reply.remaining == 0 && server.history == old(server.history)
                && (forall j :: 0 <= j < reply.index - 1 ==> live[j] < plan[j].policy.limit)
                && Refused(plan[reply.index - 1], Charges(server.history, EntryKey(prefix, plan[reply.index - 1])), now,
                     live[reply.index - 1], reply.retry)
    {
      var denial := PassOne(plan, now, live);
      if denial.Some? { return denial.value, 0; }
      ghost var past := server.issued;
      forall i | 0 <= i < |plan| ensures Room(server.sets, server.history, prefix, plan[i], past, now, live[i]) {
        IssuedAt(server.sets, past, EntryKey(prefix, plan[i]));
        TrimmedMeans(server.sets, prefix, plan, |plan|, live, i);
      }
      IssuedLater(server.sets, past, instanceTag, sequence);
      server.issued := past[instanceTag := sequence];
      var position, remaining := PassTwo(plan, now, live, past);
      return Reply(true, 0, remaining, 0), position;
    }

    function Plan(identity: Identity): seq<Entry>
      requires OrderOf(order, policies)
    {
      PlanOf(order, policies, identity)
    }

    /** A new member, and the store at `now`. */
    method Prepare(plan: seq<Entry>, ghost clock: nat, now: nat)
      returns (ghost verdicts: seq<RateLimitResult>, ghost live: seq<nat>)
      requires Valid(clock) && clock <= now && Planned(plan, policies)
      modifies this`sequence, server`sets
      ensures sequence == old(sequence) + 1 && Holds(now)
      ensures Answers(verdicts, server.history, prefix, plan, now) && Counted(plan, now, live)
    {
      ReapKeeps(server.sets, server.history, prefix, policies, clock, now, server.issued);
      sequence := sequence + 1;
      server.Reap(now);
      verdicts := AnswersExist(server.history, server.sets, prefix, policies, plan, now);
      live := LiveOf(plan, now);
    }

    /** Decide about a plan at `now`, with a new member. */
    method ConsumePlan(plan: seq<Entry>, ghost clock: nat, now: nat)
      returns (result: QuotaResult, ghost verdicts: seq<RateLimitResult>, ghost decider: nat)
      requires Valid(clock) && clock <= now && Planned(plan, policies) && |plan| >= 1
      modifies this`sequence, server
      ensures Valid(now) && NumbersMove(old(server.issued), server.issued, instanceTag, sequence)
      ensures Answers(verdicts, old(server.history), prefix, plan, now) && Decides(verdicts, decider)
      ensures result == Answered(plan, verdicts, decider)
      ensures server.history == if AllAllow(verdicts) then ChargedAll(old(server.history), prefix, plan, |plan|, now)
                                else old(server.history)
    {
      ghost var live;
      verdicts, live := Prepare(plan, clock, now);
      var reply;
      ghost var tightest;
      reply, tightest := QuotaScript(plan, now, live);
      decider := ReplyDecides(verdicts, old(server.history), prefix, plan, now, live, reply, tightest);
      OutcomeIsAnswered(plan, verdicts, decider, live, reply);
      result := Outcome(plan, reply);
    }

    /** What the check script counts: one entry more for each charge exactly as old as the window. */
    ghost function Seen(entry: Entry, now: nat): nat
      reads server
    {
      LiveCharges(entry, now) + OnEdge(Entries(server.sets, EntryKey(prefix, entry)), now - entry.policy.windowMs)
    }

    method CountSeen(entry: Entry, now: nat) returns (used: nat)
      requires policies.Ok() && Holds(now) && policies.Has(entry.budget) && entry.policy == policies.For(entry.budget)
      ensures used == Seen(entry, now)
    {
      var key, policy := EntryKey(prefix, entry), entry.policy;
      SlotAt(server.sets, server.history, prefix, policies, now, entry.budget, entry.value);
      CountedByCheck(Charges(server.history, key), Entries(server.sets, key), policy, now);
      used := server.ZCount(key, now - policy.windowMs);
    }

    ghost function SeenOf(plan: seq<Entry>, now: nat): (seen: seq<nat>)
      reads server
      ensures |seen| == |plan| && forall i :: 0 <= i < |plan| ==> seen[i] == Seen(plan[i], now)
    {
      if plan == [] then [] else SeenOf(plan[..|plan| - 1], now) + [Seen(plan[|plan| - 1], now)]
    }

    /** Counts key after key up to the first whose budget is used up, and keeps the least that remains. */
    method FirstSeenFull(plan: seq<Entry>, now: nat) returns (i: nat, least: int)
      requires policies.Ok() && Holds(now) && Planned(plan, policies)
      ensures i <= |plan| && HaveRoom(plan, SeenOf(plan, now), i) && Least(plan, SeenOf(plan, now), i, least)
      ensures i < |plan| ==> SeenOf(plan, now)[i] >= plan[i].policy.limit
    {
      ghost var seen := SeenOf(plan, now);
      i, least := 0, -1;
      while i < |plan|
        invariant i <= |plan| && HaveRoom(plan, seen, i) && Least(plan, seen, i, least)
      {
        var used := CountSeen(plan[i], now);
        if used >= plan[i].policy.limit { return; }
        var remaining := plan[i].policy.limit - used;
        LeastStep(plan, seen, i, least);
        if i == 0 || remaining < least { least := remaining; }
        i := i + 1;
      }
    }

    /**
     * `check`: the same loop without pruning, but its count includes the edge of the window. So it may
     * refuse what `consume` would allow, exactly when such a charge makes the difference.
     */
    method CheckScript(plan: seq<Entry>, now: nat) returns (reply: Reply)
      requires policies.Ok() && Holds(now) && Planned(plan, policies) && |plan| >= 1
      ensures CheckReplies(plan, SeenOf(plan, now), reply)
    {
      var i, least := FirstSeenFull(plan, now);
      ReplyIsRight(plan, SeenOf(plan, now), i, least);
      reply := CheckReply(plan, i, least);
    }

    /** What a check allows, the quota allows. */
    lemma CheckedIsAllowed(plan: seq<Entry>, now: nat, verdicts: seq<RateLimitResult>)
      requires Answers(verdicts, server.history, prefix, plan, now)
      requires HaveRoom(plan, SeenOf(plan, now), |plan|)
      ensures AllAllow(verdicts)
    {
      forall i | 0 <= i < |plan| ensures verdicts[i].allowed {
        assert SeenOf(plan, now)[i] < plan[i].policy.limit;
        VerdictAllows(verdicts[i], Charges(server.history, EntryKey(prefix, plan[i])), plan[i].policy, now);
      }
    }

    /**
     * `consume`: the decision is the one that the full histories dictate, and the charge is all or
     * nothing. An allowed answer carries the label of the first planned budget.
     */
    method Consume(identity: Identity, ghost clock: nat, now: nat)
      returns (result: QuotaResult, ghost verdicts: seq<RateLimitResult>, ghost decider: nat)
      requires Valid(clock) && clock <= now
      modifies this`sequence, server
      ensures Valid(now) && NumbersMove(old(server.issued), server.issued, instanceTag, sequence)
      ensures Answers(verdicts, old(server.history), prefix, Plan(identity), now) && Decides(verdicts, decider)
      ensures result == Answered(Plan(identity), verdicts, decider)
      ensures server.history
                == if AllAllow(verdicts)
                  then ChargedAll(old(server.history), prefix, Plan(identity), |Plan(identity)|, now)
                                else old(server.history)
    {
      PlanIsExact(order, policies, identity);
      PlanIsPlanned(Plan(identity), policies, identity);
      result, verdicts, decider := ConsumePlan(Plan(identity), clock, now);
    }

    /** `check`: uses up a member number, charges nothing, and allows nothing that `consume` would refuse. */
    method Check(identity: Identity, ghost clock: nat, now: nat)
      returns (result: QuotaResult, ghost verdicts: seq<RateLimitResult>, ghost reply: Reply)
      requires Valid(clock) && clock <= now
      modifies this`sequence, server`sets
      ensures Valid(now) && Answers(verdicts, server.history, prefix, Plan(identity), now)
      ensures CheckReplies(Plan(identity), SeenOf(Plan(identity), now), reply)
      ensures result == Outcome(Plan(identity), reply)
      ensures result.verdict.allowed ==> AllAllow(verdicts)
    {
      var plan := Plan(identity);
      PlanIsExact(order, policies, identity);
      PlanIsPlanned(plan, policies, identity);
      ghost var live;
      verdicts, live := Prepare(plan, clock, now);
      var answer := CheckScript(plan, now);
      if answer.allowed { CheckedIsAllowed(plan, now, verdicts); }
      result, reply := Outcome(plan, answer), answer;
    }
  }
}
