/** Histories of charges and what a sliding window of length `window` sees of them. */
module SlidingWindow {
  ghost predicate Ascending(h: seq<nat>) {
    forall i, j :: 0 <= i < j < |h| ==> h[i] <= h[j]
  }

  /** A charge at `t` still counts at `now`. */
  predicate Live(t: nat, window: nat, now: nat) { now - t < window }

  /** How many charges of the whole history count at `now`. */
  ghost function CountLive(h: seq<nat>, window: nat, now: nat): (n: nat)
    ensures n <= |h|
  {
    if h == [] then 0
    else CountLive(h[..|h| - 1], window, now) + if Live(h[|h| - 1], window, now) then 1 else 0
  }

  function LiveAt(h: seq<nat>, window: nat, now: nat): set<nat> {
    set i: nat | i < |h| && h[i] + window > now
  }

  /** The live charges are those whose window has not passed. */
  lemma {:induction false} LiveAreCounted(h: seq<nat>, window: nat, now: nat)
    ensures CountLive(h, window, now) == |LiveAt(h, window, now)|
  {
    if h == [] {
      assert LiveAt(h, window, now) == {};
    } else {
      var n := |h| - 1;
      LiveAreCounted(h[..n], window, now);
      if h[n] + window > now {
        assert LiveAt(h, window, now) == LiveAt(h[..n], window, now) + {n};
      } else {
        assert LiveAt(h, window, now) == LiveAt(h[..n], window, now);
      }
    }
  }

  /** In an ascending history the live charges are the last ones. */
  lemma {:induction false} LiveIsSuffix(h: seq<nat>, window: nat, now: nat)
    requires Ascending(h)
    ensures forall i :: 0 <= i < |h| ==> (Live(h[i], window, now) <==> i >= |h| - CountLive(h, window, now))
  {
    if h != [] {
      var rest := h[..|h| - 1];
      LiveIsSuffix(rest, window, now);
      assert |rest| > 0 ==> rest[|rest| - 1] == h[|h| - 2] <= h[|h| - 1];
    }
  }

  /** Any `limit + 1` consecutive charges span at least a window. */
  ghost predicate Spaced(h: seq<nat>, limit: nat, window: nat) {
    forall i, j :: 0 <= i < |h| && 0 <= j < |h| && j == i + limit ==> h[j] - h[i] >= window
  }

  lemma AppendKeepsSpaced(h: seq<nat>, limit: nat, window: nat, now: nat)
    requires limit >= 1 && Ascending(h) && Spaced(h, limit, window) && (forall i :: 0 <= i < |h| ==> h[i] <= now)
    requires CountLive(h, window, now) < limit
    ensures Ascending(h + [now]) && Spaced(h + [now], limit, window)
  {
    LiveIsSuffix(h, window, now);
    if |h| >= limit { assert !Live(h[|h| - limit], window, now); }
  }

  /** A spaced history never holds more than `limit` live charges. */
  lemma LiveAtMostLimit(h: seq<nat>, limit: nat, window: nat, now: nat)
    requires Ascending(h) && Spaced(h, limit, window) && forall i :: 0 <= i < |h| ==> h[i] <= now
    ensures CountLive(h, window, now) <= limit
  {
    LiveIsSuffix(h, window, now);
    if |h| > limit {
      var i := |h| - limit - 1;
      assert h[i + limit] - h[i] >= window;
      assert !Live(h[i], window, now);
    }
  }

  ghost function CountIn(h: seq<nat>, from: nat, to: nat): nat {
    if h == [] then 0
    else CountIn(h[..|h| - 1], from, to) + if from <= h[|h| - 1] < to then 1 else 0
  }

  lemma {:induction false} CountFromAux(h: seq<nat>, from: nat, to: nat, last: nat)
    requires from <= last < to && forall i :: 0 <= i < |h| ==> h[i] <= last
    ensures CountIn(h, from, to) == CountLive(h, last - from + 1, last)
  {
    if h != [] { CountFromAux(h[..|h| - 1], from, to, last); }
  }

  /** Up to its last charge, an interval holds the charges that are live for its width so far. */
  lemma {:induction false} CountFrom(h: seq<nat>, from: nat, to: nat)
    requires Ascending(h) && h != [] && from <= h[|h| - 1] < to
    ensures CountIn(h, from, to) == CountLive(h, h[|h| - 1] - from + 1, h[|h| - 1])
  {
    CountFromAux(h, from, to, h[|h| - 1]);
  }

  /** No half-open interval of one window holds more than `limit` charges. */
  lemma {:induction false} IntervalBound(h: seq<nat>, limit: nat, window: nat, from: nat)
    requires limit >= 1 && Ascending(h) && Spaced(h, limit, window)
    ensures CountIn(h, from, from + window) <= limit
  {
    if h != [] {
      var last := h[|h| - 1];
      IntervalBound(h[..|h| - 1], limit, window, from);
      if from <= last < from + window {
        CountFrom(h, from, from + window);
        LiveAtMostLimit(h, limit, last - from + 1, last) by {
          forall i, j | 0 <= i < |h| && 0 <= j < |h| && j == i + limit ensures h[j] - h[i] >= last - from + 1 {}
        }
      }
    }
  }

  /**
   * When `limit` charges are live, the wait for the oldest of them is exact: at `later`, with no
   * charge in between, a request is allowed iff that wait has passed.
   */
  lemma RetryIsExact(h: seq<nat>, limit: nat, window: nat, now: nat, later: nat)
    requires 1 <= limit && Ascending(h) && Spaced(h, limit, window) && forall i :: 0 <= i < |h| ==> h[i] <= now
    requires CountLive(h, window, now) >= limit && now <= later
    ensures CountLive(h, window, now) == limit
    ensures CountLive(h, window, later) < limit <==> later >= h[|h| - limit] + window
  {
    LiveAtMostLimit(h, limit, window, now);
    LiveIsSuffix(h, window, now);
    LiveIsSuffix(h, window, later);
    LiveAtMostLimit(h, limit, window, later);
  }
}
