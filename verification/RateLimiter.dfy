/**
 * The in-process rate limiter: pruned windows in a bounded map, proved against the full history of
 * charges of every identity.
 */
module RateLimiter {
  import opened SlidingWindow

  datatype Window = Window(timestamps: seq<nat>, lastAccess: nat)

  datatype RateLimitResult = RateLimitResult(
    allowed: bool, remaining: nat, retryAfterMs: nat, limit: nat, windowMs: nat)

  type Histories = map<string, seq<nat>>

  function Charges(history: Histories, key: string): seq<nat> { if key in history then history[key] else [] }

  function Kept(windows: map<string, Window>, key: string): seq<nat> {
    if key in windows then windows[key].timestamps else []
  }

  /** Charges in order, no `limit + 1` of them within one window, none from the future. */
  ghost predicate HistoryOk(h: seq<nat>, limit: nat, windowMs: nat, clock: nat)
  {
    h == [] || (
      var n := |h| - 1;
      && HistoryOk(h[..n], limit, windowMs, clock)
      && h[n] <= clock && (n > 0 ==> h[n - 1] <= h[n])
      && (limit <= n ==> h[n] - h[n - limit] >= windowMs))
  }

  ghost predicate Good(h: seq<nat>, limit: nat, windowMs: nat, clock: nat) {
    Ascending(h) && Spaced(h, limit, windowMs) && forall i :: 0 <= i < |h| ==> h[i] <= clock
  }

  lemma GoodPrefix(h: seq<nat>, limit: nat, windowMs: nat, clock: nat)
    requires Good(h, limit, windowMs, clock) && h != []
    ensures Good(h[..|h| - 1], limit, windowMs, clock)
  {
    assert forall i :: 0 <= i < |h| - 1 ==> h[..|h| - 1][i] == h[i];
  }

  lemma GoodExtend(h: seq<nat>, limit: nat, windowMs: nat, clock: nat)
    requires h != [] && Good(h[..|h| - 1], limit, windowMs, clock)
    requires var n := |h| - 1;
             h[n] <= clock && (n > 0 ==> h[n - 1] <= h[n]) && (limit <= n ==> h[n] - h[n - limit] >= windowMs)
    ensures Good(h, limit, windowMs, clock)
  {
    var n := |h| - 1;
    assert forall i :: 0 <= i < n ==> h[..n][i] == h[i];
  }

  lemma {:induction false} HistoryMeans(h: seq<nat>, limit: nat, windowMs: nat, clock: nat)
    ensures HistoryOk(h, limit, windowMs, clock) <==> Good(h, limit, windowMs, clock)
  {
    if h != [] {
      HistoryMeans(h[..|h| - 1], limit, windowMs, clock);
      if HistoryOk(h, limit, windowMs, clock) { GoodExtend(h, limit, windowMs, clock); }
      if Good(h, limit, windowMs, clock) { GoodPrefix(h, limit, windowMs, clock); }
    }
  }

  /** What is kept is a suffix of the history that leaves out only expired charges. */
  ghost predicate Agrees(h: seq<nat>, kept: seq<nat>, windowMs: nat, clock: nat)
  {
    if |h| <= |kept| then h == kept else !Live(h[0], windowMs, clock) && Agrees(h[1..], kept, windowMs, clock)
  }

  lemma {:induction false} AgreesMeans(h: seq<nat>, kept: seq<nat>, windowMs: nat, clock: nat)
    ensures Agrees(h, kept, windowMs, clock) <==>
              && |kept| <= |h| && kept == h[|h| - |kept|..]
              && forall i :: 0 <= i < |h| - |kept| ==> !Live(h[i], windowMs, clock)
  {
    if |h| > |kept| {
      AgreesMeans(h[1..], kept, windowMs, clock);
      assert h[1..][|h| - 1 - |kept|..] == h[|h| - |kept|..];
      assert forall i :: 1 <= i < |h| ==> h[1..][i - 1] == h[i];
    }
  }

  ghost predicate Tracks(windows: map<string, Window>, history: Histories, windowMs: nat, clock: nat) {
    forall key :: Agrees(Charges(history, key), Kept(windows, key), windowMs, clock)
  }

  ghost predicate HistoriesOk(history: Histories, limit: nat, windowMs: nat, clock: nat) {
    forall key :: HistoryOk(Charges(history, key), limit, windowMs, clock)
  }

  /** Nothing of the window counts any more. */
  predicate Expired(window: Window, windowMs: nat, now: nat) {
    var ts := window.timestamps;
    |ts| == 0 || !Live(ts[|ts| - 1], windowMs, now)
  }

  /** Time passing keeps both. */
  lemma ClockAdvances(windows: map<string, Window>, history: Histories, limit: nat, windowMs: nat, clock: nat, now: nat)
    requires Tracks(windows, history, windowMs, clock) && HistoriesOk(history, limit, windowMs, clock) && clock <= now
    ensures Tracks(windows, history, windowMs, now) && HistoriesOk(history, limit, windowMs, now)
  {
    forall key ensures Agrees(Charges(history, key), Kept(windows, key), windowMs, now) {
      AgreesMeans(Charges(history, key), Kept(windows, key), windowMs, clock);
      AgreesMeans(Charges(history, key), Kept(windows, key), windowMs, now);
    }
    forall key ensures HistoryOk(Charges(history, key), limit, windowMs, now) {
      HistoryMeans(Charges(history, key), limit, windowMs, clock);
      HistoryMeans(Charges(history, key), limit, windowMs, now);
    }
  }

  lemma DropWindow(h: seq<nat>, window: Window, limit: nat, windowMs: nat, now: nat)
    requires HistoryOk(h, limit, windowMs, now) && Agrees(h, window.timestamps, windowMs, now)
    requires Expired(window, windowMs, now)
    ensures Agrees(h, [], windowMs, now)
  {
    var ts := window.timestamps;
    HistoryMeans(h, limit, windowMs, now);
    AgreesMeans(h, ts, windowMs, now);
    AgreesMeans(h, [], windowMs, now);
    assert |ts| > 0 ==> ts[|ts| - 1] == h[|h| - 1];
    assert h[|h|..] == [];
  }

  /** An expired window holds only expired charges, so dropping it loses nothing live. */
  lemma DropExpired(windows: map<string, Window>, history: Histories, limit: nat, windowMs: nat, now: nat, key: string)
    requires Tracks(windows, history, windowMs, now) && HistoriesOk(history, limit, windowMs, now)
    requires key in windows && Expired(windows[key], windowMs, now)
    ensures Tracks(windows - {key}, history, windowMs, now)
  {
    forall other ensures Agrees(Charges(history, other), Kept(windows - {key}, other), windowMs, now) {
      assert Agrees(Charges(history, other), Kept(windows, other), windowMs, now);
      if other == key {
        DropWindow(Charges(history, key), windows[key], limit, windowMs, now);
      }
    }
  }

  lemma ForgetHistory(history: Histories, limit: nat, windowMs: nat, now: nat, key: string)
    requires HistoriesOk(history, limit, windowMs, now)
    ensures HistoriesOk(history - {key}, limit, windowMs, now)
  {
    var h := history - {key};
    forall other ensures HistoryOk(Charges(h, other), limit, windowMs, now) {
      assert HistoryOk(Charges(history, other), limit, windowMs, now);
      assert other != key ==> Charges(h, other) == Charges(history, other);
    }
  }

  /** Forgetting an identity on both sides keeps the rest. */
  lemma ForgetBoth(windows: map<string, Window>, history: Histories, limit: nat, windowMs: nat, now: nat, key: string)
    requires Tracks(windows, history, windowMs, now) && HistoriesOk(history, limit, windowMs, now)
    ensures Tracks(windows - {key}, history - {key}, windowMs, now)
    ensures HistoriesOk(history - {key}, limit, windowMs, now)
  {
    var w, h := windows - {key}, history - {key};
    forall other ensures Agrees(Charges(h, other), Kept(w, other), windowMs, now) {
      assert Agrees(Charges(history, other), Kept(windows, other), windowMs, now);
      assert other == key ==> Charges(h, other) == [] && Kept(w, other) == [];
      assert other != key ==> Charges(h, other) == Charges(history, other) && Kept(w, other) == Kept(windows, other);
    }
    ForgetHistory(history, limit, windowMs, now, key);
  }

  /** Rewriting the entries of one identity on both sides keeps the rest. */
  lemma RewriteBoth(
    windows: map<string, Window>, history: Histories, limit: nat, windowMs: nat, now: nat, key: string, window: Window,
    h: seq<nat>)
    requires Tracks(windows, history, windowMs, now) && HistoriesOk(history, limit, windowMs, now)
    requires HistoryOk(h, limit, windowMs, now) && Agrees(h, window.timestamps, windowMs, now)
    ensures Tracks(windows[key := window], history[key := h], windowMs, now)
    ensures HistoriesOk(history[key := h], limit, windowMs, now)
  {
    var ws, hs := windows[key := window], history[key := h];
    forall other ensures Agrees(Charges(hs, other), Kept(ws, other), windowMs, now) {
      assert Agrees(Charges(history, other), Kept(windows, other), windowMs, now);
    }
    forall other ensures HistoryOk(Charges(hs, other), limit, windowMs, now) {
      assert HistoryOk(Charges(history, other), limit, windowMs, now);
    }
  }

  /** An empty window tracks what no window tracks. */
  lemma AddEmptyWindow(
    windows: map<string, Window>, history: Histories, windowMs: nat, now: nat, key: string, lastAccess: nat)
    requires Tracks(windows, history, windowMs, now) && key !in windows
    ensures Tracks(windows[key := Window([], lastAccess)], history, windowMs, now)
  {
    var ws := windows[key := Window([], lastAccess)];
    forall other ensures Agrees(Charges(history, other), Kept(ws, other), windowMs, now) {
      assert Agrees(Charges(history, other), Kept(windows, other), windowMs, now);
      assert Kept(ws, other) == Kept(windows, other);
    }
  }

  lemma DropKey(windows: map<string, Window>, key: string)
    requires key in windows
    ensures |windows - {key}| == |windows| - 1 && (windows - {key}).Keys == windows.Keys - {key}
  {
    assert (windows - {key}).Keys == windows.Keys - {key};
    assert |(windows - {key}).Keys| == |windows - {key}| && |windows.Keys| == |windows|;
  }

  lemma WriteKey(windows: map<string, Window>, key: string, window: Window)
    ensures |windows[key := window]| == |windows| + if key in windows then 0 else 1
    ensures windows[key := window].Keys == windows.Keys + {key}
  {
    var next := windows[key := window];
    assert |next.Keys| == |next| && |windows.Keys| == |windows|;
    if key in windows { assert next.Keys == windows.Keys; } else { assert next.Keys == windows.Keys + {key}; }
  }

  lemma SmallerSubmap(small: map<string, Window>, large: map<string, Window>, key: string)
    requires small.Keys <= large.Keys && key in large && key !in small
    ensures |small| < |large|
  {
    DropKey(large, key);
    assert small.Keys <= large.Keys - {key};
    assert |small.Keys| == |small| && |(large - {key}).Keys| == |large - {key}|;
    assert |(large.Keys - {key}) - small.Keys| == |large.Keys - {key}| - |small.Keys|;
  }

  lemma SameSizeSubmap(small: map<string, Window>, large: map<string, Window>)
    requires small.Keys <= large.Keys && |small| >= |large| && forall key :: key in small ==> small[key] == large[key]
    ensures small == large
  {
    assert |small.Keys| == |small| && |large.Keys| == |large|;
    assert |large.Keys - small.Keys| == |large.Keys| - |small.Keys|;
  }

  /** What the whole history says about a request at `now`, whatever was pruned. */
  ghost function Verdict(h: seq<nat>, limit: nat, windowMs: nat, now: nat, charge: bool): RateLimitResult
    requires HistoryOk(h, limit, windowMs, now) && limit >= 1
  {
    HistoryMeans(h, limit, windowMs, now);
    var used := CountLive(h, windowMs, now);
    LiveIsSuffix(h, windowMs, now);
    assert used >= limit ==> Live(h[|h| - used], windowMs, now);
    RateLimitResult(
      used < limit,
      if used < limit then limit - used - (if charge then 1 else 0) else 0,
      if used < limit then 0 else h[|h| - used] + windowMs - now,
      limit, windowMs)
  }

  /**
   * A request is allowed exactly while fewer charges than the limit are live. What remains then makes up
   * the limit, with the charge itself if there is one; a refusal leaves nothing and says how long to wait.
   */
  lemma VerdictMeans(h: seq<nat>, limit: nat, windowMs: nat, now: nat, charge: bool)
    requires HistoryOk(h, limit, windowMs, now) && limit >= 1
    ensures var verdict, live := Verdict(h, limit, windowMs, now, charge), |LiveAt(h, windowMs, now)|;
            && (verdict.allowed <==> live < limit)
            && (verdict.allowed ==>
                  live + verdict.remaining + (if charge then 1 else 0) == limit && verdict.retryAfterMs == 0)
            && (!verdict.allowed ==> verdict.remaining == 0 && verdict.retryAfterMs > 0)
            && verdict.limit == limit && verdict.windowMs == windowMs
  {
    HistoryMeans(h, limit, windowMs, now);
    LiveAreCounted(h, windowMs, now);
    LiveIsSuffix(h, windowMs, now);
    var used := CountLive(h, windowMs, now);
    if used >= limit { assert Live(h[|h| - used], windowMs, now); }
  }

  /** A refusal names the exact earliest time at which a request without further charges is allowed. */
  lemma RefusalIsExact(h: seq<nat>, limit: nat, windowMs: nat, now: nat, charge: bool, later: nat)
    requires HistoryOk(h, limit, windowMs, now) && limit >= 1 && now <= later
    requires !Verdict(h, limit, windowMs, now, charge).allowed
    ensures HistoryOk(h, limit, windowMs, later)
    ensures Verdict(h, limit, windowMs, later, charge).allowed
       <==> later >= now + Verdict(h, limit, windowMs, now, charge).retryAfterMs
  {
    HistoryMeans(h, limit, windowMs, now);
    HistoryMeans(h, limit, windowMs, later);
    RetryIsExact(h, limit, windowMs, now, later);
  }

  /** No window of time, whatever its position, holds more than `limit` charges. */
  lemma WindowsNeverOverfull(h: seq<nat>, limit: nat, windowMs: nat, clock: nat, from: nat)
    requires limit >= 1 && HistoryOk(h, limit, windowMs, clock)
    ensures CountIn(h, from, from + windowMs) <= limit
  {
    HistoryMeans(h, limit, windowMs, clock);
    IntervalBound(h, limit, windowMs, from);
  }

  /** An allowed request stays allowed while time passes without further charges. */
  lemma AllowedStaysAllowed(h: seq<nat>, limit: nat, windowMs: nat, now: nat, later: nat)
    requires limit >= 1 && HistoryOk(h, limit, windowMs, now) && now <= later
    requires Verdict(h, limit, windowMs, now, false).allowed
    ensures HistoryOk(h, limit, windowMs, later) && Verdict(h, limit, windowMs, later, true).allowed
  {
    HistoryMeans(h, limit, windowMs, now);
    HistoryMeans(h, limit, windowMs, later);
    LiveIsSuffix(h, windowMs, now);
    LiveIsSuffix(h, windowMs, later);
    var n, m := CountLive(h, windowMs, now), CountLive(h, windowMs, later);
    if m > 0 { assert Live(h[|h| - m], windowMs, later) && Live(h[|h| - m], windowMs, now); }
  }

  ghost predicate IsLeastRecent(windows: map<string, Window>, victim: string) {
    victim in windows && forall key :: key in windows ==> windows[victim].lastAccess <= windows[key].lastAccess
  }

  /** Exactly when a request makes the ceiling forget a live identity: it is new and nobody else has expired. */
  ghost predicate CeilingForgets(
    windows: map<string, Window>, key: string, maxIdentities: nat, windowMs: nat, now: nat)
  {
    && key !in windows && |windows| >= maxIdentities
    && forall other :: other in windows ==> !Expired(windows[other], windowMs, now)
  }

  /** Who is forgotten: nobody, or the least recently used identity when the ceiling leaves no choice. */
  ghost predicate Victims(
    windows: map<string, Window>, key: string, maxIdentities: nat, windowMs: nat, now: nat, forgotten: set<string>)
  {
    if CeilingForgets(windows, key, maxIdentities, windowMs, now)
    then exists victim :: forgotten == {victim} && IsLeastRecent(windows, victim)
    else forgotten == {}
  }

  /** What is left after dropping aged timestamps still agrees with the history. */
  lemma PruningAgrees(h: seq<nat>, ts: seq<nat>, drop: nat, windowMs: nat, now: nat)
    requires Agrees(h, ts, windowMs, now) && drop <= |ts|
    requires forall i :: 0 <= i < drop ==> !Live(ts[i], windowMs, now)
    ensures Agrees(h, ts[drop..], windowMs, now)
  {
    AgreesMeans(h, ts, windowMs, now);
    AgreesMeans(h, ts[drop..], windowMs, now);
    var cut := |h| - |ts|;
    assert forall i :: 0 <= i < |ts| ==> ts[i] == h[cut + i];
    forall i | 0 <= i < cut + drop ensures !Live(h[i], windowMs, now) {
      if i >= cut { assert ts[i - cut] == h[i]; }
    }
  }

  lemma Pruning(h: seq<nat>, ts: seq<nat>, drop: nat, limit: nat, windowMs: nat, now: nat)
    requires HistoryOk(h, limit, windowMs, now) && Agrees(h, ts, windowMs, now) && drop <= |ts|
    requires forall i :: 0 <= i < drop ==> !Live(ts[i], windowMs, now)
    requires drop < |ts| ==> Live(ts[drop], windowMs, now)
    ensures |ts[drop..]| == CountLive(h, windowMs, now)
    ensures Agrees(h, ts[drop..], windowMs, now)
    ensures drop < |ts| ==> ts[drop] == h[|h| - |ts[drop..]|]
  {
    PruningAgrees(h, ts, drop, windowMs, now);
    var kept := ts[drop..];
    HistoryMeans(h, limit, windowMs, now);
    AgreesMeans(h, kept, windowMs, now);
    LiveIsSuffix(h, windowMs, now);
    var cut := |h| - |kept|;
    if kept != [] { assert kept[0] == h[cut] && Live(h[cut], windowMs, now); }
    if cut > 0 { assert !Live(h[cut - 1], windowMs, now); }
  }

  lemma Charging(h: seq<nat>, ts: seq<nat>, limit: nat, windowMs: nat, now: nat)
    requires limit >= 1 && HistoryOk(h, limit, windowMs, now) && Agrees(h, ts, windowMs, now)
    requires CountLive(h, windowMs, now) < limit
    ensures HistoryOk(h + [now], limit, windowMs, now) && Agrees(h + [now], ts + [now], windowMs, now)
  {
    HistoryMeans(h, limit, windowMs, now);
    AppendKeepsSpaced(h, limit, windowMs, now);
    HistoryMeans(h + [now], limit, windowMs, now);
    AgreesMeans(h, ts, windowMs, now);
    AgreesMeans(h + [now], ts + [now], windowMs, now);
  }

  lemma OldestIsLive(h: seq<nat>, limit: nat, windowMs: nat, now: nat)
    requires HistoryOk(h, limit, windowMs, now) && CountLive(h, windowMs, now) >= limit >= 1
    ensures CountLive(h, windowMs, now) == limit && h[|h| - limit] + windowMs > now
  {
    HistoryMeans(h, limit, windowMs, now);
    LiveAtMostLimit(h, limit, windowMs, now);
    LiveIsSuffix(h, windowMs, now);
    assert Live(h[|h| - limit], windowMs, now);
  }

  lemma AnswerIsVerdict(
    h: seq<nat>, limit: nat, windowMs: nat, now: nat, charge: bool, oldest: nat, result: RateLimitResult)
    requires limit >= 1 && HistoryOk(h, limit, windowMs, now)
    requires var used := CountLive(h, windowMs, now);
             && result.limit == limit && result.windowMs == windowMs && result.allowed == (used < limit)
             && result.remaining == (if used >= limit then 0 else limit - used - (if charge then 1 else 0))
             && (used < limit ==> result.retryAfterMs == 0)
             && (used >= limit ==> oldest == h[|h| - used]
                                   && result.retryAfterMs
                                        == if oldest + windowMs > now then oldest + windowMs - now else 0)
    ensures result == Verdict(h, limit, windowMs, now, charge)
  {
    if CountLive(h, windowMs, now) >= limit { OldestIsLive(h, limit, windowMs, now); }
  }

  /** The identities of windows that were touched no earlier than the counter says. */
  ghost function Untimely(windows: map<string, Window>, counter: nat): set<string> {
    set key | key in windows && windows[key].lastAccess >= counter
  }

  /** The identities that a sweep would keep. */
  ghost function Unexpired(windows: map<string, Window>, windowMs: nat, now: nat): set<string> {
    set key | key in windows && !Expired(windows[key], windowMs, now)
  }

  /** Whom the map holds once `key` is admitted: at a full map expired identities make room, or else `forgotten`. */
  ghost function Admitted(
    windows: map<string, Window>, key: string, maxIdentities: nat, windowMs: nat, now: nat, forgotten: set<string>)
    : set<string>
  {
    if key in windows || |windows| < maxIdentities then windows.Keys + {key}
    else (Unexpired(windows, windowMs, now) - forgotten) + {key}
  }

  /** Of the windows besides that of `key` none is new or changed. */
  ghost predicate OthersAsBefore(before: map<string, Window>, after: map<string, Window>, key: string) {
    forall other :: other in after && other != key ==> other in before && after[other] == before[other]
  }

  /** The window of `key`, if it is there, is the one touched last. */
  ghost predicate TouchedLast(windows: map<string, Window>, key: string) {
    key in windows ==> forall other :: other in windows && other != key ==>
      windows[other].lastAccess < windows[key].lastAccess
  }

  /** Every so many operations the expired windows go, and at no other time. */
  ghost predicate Tended(
    admitted: set<string>, windows: map<string, Window>, key: string, windowMs: nat, now: nat, swept: bool,
    before: map<string, Window>)
  {
    && windows.Keys <= admitted
    && (!swept ==> windows.Keys == admitted)
    && (swept ==> Unexpired(windows, windowMs, now) == windows.Keys)
    && forall other :: other in admitted && other !in windows ==>
         other == key || (other in before && Expired(before[other], windowMs, now))
  }

  /** Touching one identity and then tending the map leaves the other windows alone, but for the expired ones. */
  lemma TendingKeeps(
    before: map<string, Window>, touched: map<string, Window>, after: map<string, Window>, key: string, windowMs: nat,
    now: nat, swept: bool)
    requires key in before && touched.Keys == before.Keys
    requires OthersAsBefore(before, touched, key) && TouchedLast(touched, key)
    requires after.Keys == if swept then Unexpired(touched, windowMs, now) else touched.Keys
    requires forall other :: other in after ==> after[other] == touched[other]
    ensures Tended(before.Keys, after, key, windowMs, now, swept, before)
    ensures OthersAsBefore(before, after, key) && TouchedLast(after, key)
  {
    forall other | other in before.Keys && other !in after && other != key
      ensures Expired(before[other], windowMs, now)
    {
      assert other in touched && other !in Unexpired(touched, windowMs, now);
    }
  }

  class InProcessRateLimiter {
    const limit: nat
    const windowMs: nat
    const maxIdentities: nat
    const sweepEvery: nat
    var windows: map<string, Window>
    var accessCounter: nat
    var operations: nat
    var evicted: nat
    /** Every charge of an identity since it was last forgotten by a reset, a clear or the ceiling. */
    ghost var history: Histories
    /** The latest clock reading. */
    ghost var clock: nat

    ghost predicate Valid() reads this {
      && limit >= 1 && windowMs >= 1 && maxIdentities >= 1 && sweepEvery >= 1
      && |windows| <= maxIdentities && Untimely(windows, accessCounter) == {}
      && HistoriesOk(history, limit, windowMs, clock)
      && Tracks(windows, history, windowMs, clock)
    }

    constructor (limit: nat, windowMs: nat, maxIdentities: nat, sweepEvery: nat)
      requires limit >= 1 && windowMs >= 1 && maxIdentities >= 1 && sweepEvery >= 1
      ensures Valid() && history == map[] && evicted == 0 && clock == 0 && operations == 0
      ensures this.limit == limit && this.windowMs == windowMs
      ensures this.maxIdentities == maxIdentities && this.sweepEvery == sweepEvery
    {
      this.limit, this.windowMs, this.maxIdentities, this.sweepEvery := limit, windowMs, maxIdentities, sweepEvery;
      windows, accessCounter, operations, evicted := map[], 0, 0, 0;
      history, clock := map[], 0;
    }

    /** Drops the windows whose newest timestamp has aged out, and no live charge with them. */
    method Sweep(now: nat)
      requires Valid() && now == clock
      modifies this`windows
      ensures Valid()
      ensures forall key :: key in windows <==> key in old(windows) && !Expired(old(windows)[key], windowMs, now)
      ensures forall key :: key in windows ==> windows[key] == old(windows)[key]
    {
      ghost var before := windows;
      var pending := windows.Keys;
      while pending != {}
        invariant pending <= windows.Keys <= before.Keys
        invariant forall key :: key in windows ==> windows[key] == before[key]
        invariant forall key ::
                    key in before && key !in pending ==> (key in windows <==> !Expired(before[key], windowMs, now))
        invariant |windows| <= |before|
        invariant Tracks(windows, history, windowMs, now)
      {
        var key :| key in pending;
        pending := pending - {key};
        if Expired(windows[key], windowMs, now) {
          DropExpired(windows, history, limit, windowMs, now, key);
          DropKey(windows, key);
          windows := windows - {key};
        }
      }
    }

    method LeastRecentlyUsed() returns (oldest: string)
      requires windows != map[]
      ensures oldest in windows
      ensures forall key :: key in windows ==> windows[oldest].lastAccess <= windows[key].lastAccess
    {
      oldest :| oldest in windows;
      var pending := windows.Keys - {oldest};
      while pending != {}
        invariant pending <= windows.Keys && oldest in windows
        invariant forall key ::
                    key in windows && key !in pending ==> windows[oldest].lastAccess <= windows[key].lastAccess
      {
        var key :| key in pending;
        pending := pending - {key};
        if windows[key].lastAccess < windows[oldest].lastAccess { oldest := key; }
      }
    }

    /** Forgets the least recently used identity with all its charges. */
    method ForgetOldest() returns (oldest: string)
      requires Valid() && windows != map[]
      modifies this`windows, this`evicted, this`history
      ensures Valid() && IsLeastRecent(old(windows), oldest)
      ensures windows == old(windows) - {oldest} && |windows| == |old(windows)| - 1
      ensures history == old(history) - {oldest} && evicted == old(evicted) + 1
    {
      oldest := LeastRecentlyUsed();
      DropKey(windows, oldest);
      ForgetBoth(windows, history, limit, windowMs, clock, oldest);
      windows := windows - {oldest};
      history := history - {oldest};
      evicted := evicted + 1;
    }

    /**
     * Makes room for one identity: expired windows go first. Only when every window still holds a live
     * charge is the least recently used identity forgotten.
     */
    method Evict(now: nat) returns (ghost forgotten: set<string>)
      requires Valid() && now == clock && |windows| == maxIdentities
      modifies this`windows, this`evicted, this`history
      ensures Valid() && |windows| < maxIdentities
      ensures windows.Keys == Unexpired(old(windows), windowMs, now) - forgotten
      ensures forall key :: key in windows ==> windows[key] == old(windows)[key]
      ensures history == old(history) - forgotten && evicted == old(evicted) + |forgotten|
      ensures (exists key :: key in old(windows) && Expired(old(windows)[key], windowMs, now)) ==> forgotten == {}
      ensures !(exists key :: key in old(windows) && Expired(old(windows)[key], windowMs, now)) ==>
                exists victim :: forgotten == {victim} && IsLeastRecent(old(windows), victim)
    {
      ghost var before := windows;
      Sweep(now);
      if |windows| < maxIdentities {
        assert windows != before;
        forgotten := {};
        assert history - forgotten == history;
        return;
      }
      SameSizeSubmap(windows, before);
      var oldest := ForgetOldest();
      forgotten := {oldest};
    }

    /** Opens an empty window for one more identity. */
    method Track(key: string)
      requires Valid() && key !in windows && |windows| < maxIdentities
      modifies this`windows, this`accessCounter
      ensures Valid() && windows.Keys == old(windows).Keys + {key}
      ensures forall other :: other in old(windows) ==> windows[other] == old(windows)[other]
    {
      AddEmptyWindow(windows, history, windowMs, clock, key, accessCounter);
      WriteKey(windows, key, Window([], accessCounter));
      assert forall other :: other in windows ==> other !in Untimely(windows, accessCounter);
      windows := windows[key := Window([], accessCounter)];
      accessCounter := accessCounter + 1;
    }

    /** Tracks `key`, after making room for it if the map is full. */
    method Admit(key: string, now: nat) returns (ghost forgotten: set<string>)
      requires Valid() && clock == now
      modifies this`windows, this`evicted, this`history, this`accessCounter
      ensures Valid() && key in windows
      ensures history == old(history) - forgotten && evicted == old(evicted) + |forgotten|
      ensures Victims(old(windows), key, maxIdentities, windowMs, now, forgotten)
      ensures windows.Keys == Admitted(old(windows), key, maxIdentities, windowMs, now, forgotten)
      ensures OthersAsBefore(old(windows), windows, key)
    {
      forgotten := {};
      if key !in windows {
        if |windows| >= maxIdentities {
          forgotten := Evict(now);
        }
        Track(key);
      }
      assert history - {} == history;
    }

    /** How many timestamps at the front have aged out. */
    method Aged(ts: seq<nat>, now: nat) returns (drop: nat)
      ensures drop <= |ts| && forall i :: 0 <= i < drop ==> !Live(ts[i], windowMs, now)
      ensures drop < |ts| ==> Live(ts[drop], windowMs, now)
    {
      drop := 0;
      while drop < |ts| && now - ts[drop] >= windowMs
        invariant drop <= |ts|
        invariant forall i :: 0 <= i < drop ==> !Live(ts[i], windowMs, now)
      {
        drop := drop + 1;
      }
    }

    /** Stores the pruned window of one identity, and its full history beside it. */
    method Keep(key: string, ts: seq<nat>, ghost h: seq<nat>)
      requires Valid() && key in windows && HistoryOk(h, limit, windowMs, clock) && Agrees(h, ts, windowMs, clock)
      modifies this`windows, this`history, this`accessCounter
      ensures Valid() && windows.Keys == old(windows).Keys && history == old(history)[key := h]
      ensures OthersAsBefore(old(windows), windows, key) && TouchedLast(windows, key)
    {
      RewriteBoth(windows, history, limit, windowMs, clock, key, Window(ts, accessCounter), h);
      assert forall other :: other in windows ==> other !in Untimely(windows, accessCounter);
      WriteKey(windows, key, Window(ts, accessCounter));
      windows := windows[key := Window(ts, accessCounter)];
      history := history[key := h];
      accessCounter := accessCounter + 1;
    }

    /** The middle of `evaluate`: drop aged timestamps, decide, and charge. */
    method PruneAndCharge(key: string, charge: bool, now: nat) returns (allowed: bool, used: nat, oldest: nat)
      requires Valid() && clock == now && key in windows
      modifies this`windows, this`history, this`accessCounter
      ensures Valid() && windows.Keys == old(windows).Keys
      ensures OthersAsBefore(old(windows), windows, key) && TouchedLast(windows, key)
      ensures HistoryOk(Charges(old(history), key), limit, windowMs, now)
      ensures used == CountLive(Charges(old(history), key), windowMs, now)
      ensures allowed <==> used < limit
      ensures history == old(history)[key := Charges(old(history), key) + if charge && allowed then [now] else []]
      ensures !allowed ==> oldest == Charges(old(history), key)[|Charges(old(history), key)| - used]
    {
      ghost var h := Charges(history, key);
      assert HistoryOk(h, limit, windowMs, now) && Agrees(h, Kept(windows, key), windowMs, now);
      var ts := windows[key].timestamps;
      var drop := Aged(ts, now);
      Pruning(h, ts, drop, limit, windowMs, now);
      ts := ts[drop..];
      used := |ts|;
      allowed := used < limit;
      oldest := if allowed then 0 else ts[0];
      if charge && allowed {
        Charging(h, ts, limit, windowMs, now);
        ts := ts + [now];
        h := h + [now];
      }
      assert Charges(old(history), key) + [] == Charges(old(history), key);
      Keep(key, ts, h);
    }

    /** The end of `evaluate`: every `sweepEvery` operations the expired windows go. */
    method Tend(key: string, now: nat)
      requires Valid() && clock == now && key in windows
      modifies this`windows, this`operations
      ensures Valid() && operations == old(operations) + 1
      ensures windows.Keys == if operations % sweepEvery == 0 then Unexpired(old(windows), windowMs, now)
                              else old(windows).Keys
      ensures forall other :: other in windows ==> windows[other] == old(windows)[other]
      ensures key in windows || |windows| < maxIdentities
    {
      operations := operations + 1;
      if operations % sweepEvery == 0 {
        ghost var unswept := windows;
        Sweep(now);
        if key !in windows { SmallerSubmap(windows, unswept, key); }
      }
    }

    /** What the caller is told about `used` live charges, the oldest of them at `oldest`. */
    method Answer(ghost h: seq<nat>, allowed: bool, used: nat, oldest: nat, charge: bool, now: nat)
      returns (result: RateLimitResult)
      requires limit >= 1 && HistoryOk(h, limit, windowMs, now) && used == CountLive(h, windowMs, now)
      requires (allowed <==> used < limit) && (!allowed ==> used <= |h| && used > 0 && oldest == h[|h| - used])
      ensures result == Verdict(h, limit, windowMs, now, charge)
    {
      var retryAfterMs := 0;
      if !allowed {
        retryAfterMs := if oldest + windowMs > now then oldest + windowMs - now else 0;
      }
      var spent := if charge && allowed then 1 else 0;
      var remaining := if limit > used + spent then limit - used - spent else 0;
      result := RateLimitResult(allowed, remaining, retryAfterMs, limit, windowMs);
      AnswerIsVerdict(h, limit, windowMs, now, charge, oldest, result);
    }

    method DecideTracked(key: string, charge: bool, now: nat) returns (result: RateLimitResult)
      requires Valid() && clock == now && key in windows
      modifies this`windows, this`history, this`accessCounter, this`operations
      ensures Valid()
      ensures HistoryOk(Charges(old(history), key), limit, windowMs, now)
      ensures result == Verdict(Charges(old(history), key), limit, windowMs, now, charge)
      ensures history
                == old(history)[key := Charges(old(history), key) + if charge && result.allowed then [now] else []]
      ensures key in windows || |windows| < maxIdentities
      ensures operations == old(operations) + 1
      ensures Tended(old(windows).Keys, windows, key, windowMs, now, operations % sweepEvery == 0, old(windows))
      ensures OthersAsBefore(old(windows), windows, key) && TouchedLast(windows, key)
    {
      ghost var h := Charges(history, key);
      var allowed, used, oldest := PruneAndCharge(key, charge, now);
      ghost var touched := windows;
      Tend(key, now);
      TendingKeeps(old(windows), touched, windows, key, windowMs, now, operations % sweepEvery == 0);
      result := Answer(h, allowed, used, oldest, charge, now);
    }

    /**
     * Decides about one request, and charges it when `charge` is set and it is allowed. The decision
     * is the one the full history dictates. The history of another identity changes only when the
     * ceiling forgets it.
     */
    method Evaluate(key: string, charge: bool, now: nat) returns (result: RateLimitResult, ghost forgotten: set<string>)
      requires Valid() && clock <= now
      modifies this
      ensures Valid() && clock == now
      ensures HistoryOk(Charges(old(history), key), limit, windowMs, now)
      ensures result == Verdict(Charges(old(history), key), limit, windowMs, now, charge)
      ensures history
                == (old(history) - forgotten)[key :=
                     Charges(old(history), key) + if charge && result.allowed then [now] else []]
      ensures Victims(old(windows), key, maxIdentities, windowMs, now, forgotten)
      ensures evicted == old(evicted) + |forgotten|
      ensures key in windows || |windows| < maxIdentities
      ensures operations == old(operations) + 1 && TouchedLast(windows, key)
      ensures OthersAsBefore(old(windows), windows, key)
      ensures Tended(Admitted(old(windows), key, maxIdentities, windowMs, now, forgotten), windows, key, windowMs, now,
                operations % sweepEvery == 0, old(windows))
    {
      ClockAdvances(windows, history, limit, windowMs, clock, now);
      clock := now;
      forgotten := Admit(key, now);
      assert Charges(history, key) == Charges(old(history), key) by { assert key !in forgotten; }
      result := DecideTracked(key, charge, now);
    }

    /** Forgets one identity. */
    method Reset(key: string)
      requires Valid()
      modifies this`windows, this`history
      ensures Valid() && history == old(history) - {key} && windows == old(windows) - {key}
    {
      ForgetBoth(windows, history, limit, windowMs, clock, key);
      if key in windows { DropKey(windows, key); } else { assert windows - {key} == windows; }
      windows := windows - {key};
      history := history - {key};
    }
  }

  method FirstCharge() returns (limiter: InProcessRateLimiter, first: RateLimitResult)
    ensures fresh(limiter) && limiter.Valid() && limiter.clock == 0 && Charges(limiter.history, "a") == [0]
    ensures limiter.limit == 1 && limiter.windowMs == 60000 && limiter.maxIdentities == 1
    ensures first.allowed && first.windowMs == 60000 && first.limit == 1
  {
    limiter := new InProcessRateLimiter(1, 60000, 1, 256);
    ghost var forgotten;
    first, forgotten := limiter.Evaluate("a", true, 0);
  }

  /** A limiter with room for one tracks just the identity that it has charged. */
  lemma OnlyTracked(limiter: InProcessRateLimiter, key: string, now: nat)
    requires limiter.Valid() && limiter.maxIdentities == 1 && limiter.clock <= now
    requires Charges(limiter.history, key) != []
    requires Live(Charges(limiter.history, key)[|Charges(limiter.history, key)| - 1], limiter.windowMs, now)
    ensures limiter.windows.Keys == {key} && !Expired(limiter.windows[key], limiter.windowMs, now)
  {
    var h, kept := Charges(limiter.history, key), Kept(limiter.windows, key);
    assert Agrees(h, kept, limiter.windowMs, limiter.clock);
    AgreesMeans(h, kept, limiter.windowMs, limiter.clock);
    assert kept != [] && kept[|kept| - 1] == h[|h| - 1];
    assert |limiter.windows.Keys| == |limiter.windows| <= 1;
    assert |limiter.windows.Keys - {key}| == |limiter.windows.Keys| - 1;
    assert limiter.windows.Keys - {key} == {};
  }

  /**
   * The ceiling makes a mere check of a new identity change another identity's answer: with room for one
   * identity and one request a minute, "a" is allowed twice within two milliseconds.
   */
  method CheckThatForgets() returns (first: RateLimitResult, second: RateLimitResult)
    ensures first.allowed && second.allowed && first.windowMs == second.windowMs == 60000
    ensures first.limit == second.limit == 1
  {
    var limiter;
    limiter, first := FirstCharge();
    OnlyTracked(limiter, "a", 1);
    var other;
    ghost var forgotten;
    other, forgotten := limiter.Evaluate("b", false, 1);
    assert Charges(limiter.history, "a") == [];
    second, forgotten := limiter.Evaluate("a", true, 2);
  }
}
