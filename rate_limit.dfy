/**
 * The sliding-window rate limiter of accounts/utils.py. The Django cache
 * is a map from cache keys to the list of attempt times (whole seconds)
 * stored under them; the clock reading is a parameter.
 */
module RateLimit {

  /** The defaults of `is_rate_limited`: five attempts per hour. */
  const DefaultMaxAttempts := 5
  const DefaultPeriod := 3600

  /** The cache key of one endpoint and one identifier. */
  function CacheKey(requestType: string, identifier: string): string {
    "password_reset_attempts_" + requestType + "_" + identifier
  }

  /** The list comprehension: the attempts made less than `period` before `now`, in their stored order. */
  function Recent(attempts: seq<int>, now: int, period: int): (r: seq<int>)
    ensures |r| <= |attempts|
    ensures forall x :: x in r <==> x in attempts && now - x < period
    decreases |attempts|
  {
    if attempts == [] then []
    else
      var last := attempts[|attempts| - 1];
      assert attempts == attempts[..|attempts| - 1] + [last];
      Recent(attempts[..|attempts| - 1], now, period) + (if now - last < period then [last] else [])
  }

  /**
   * One call on a key whose stored list is `stored`: limited when at least
   * `maxAttempts` recent attempts remain, in which case nothing is written;
   * otherwise the recent attempts plus `now` are written back.
   */
  function Step(stored: seq<int>, now: int, maxAttempts: int, period: int): (bool, seq<int>) {
    var recent := Recent(stored, now, period);
    if |recent| >= maxAttempts then (true, stored) else (false, recent + [now])
  }

  class RateLimiter {
    var cache: map<string, seq<int>>

    constructor ()
      ensures cache == map[]
    {
      cache := map[];
    }

    /** The list stored under `key`, or the empty list. */
    function Stored(key: string): seq<int>
      reads this
    {
      if key in cache then cache[key] else []
    }

    /**
     * `is_rate_limited(identifier, request_type, max_attempts, period)` at
     * time `now`. Only the key built from the request type and the
     * identifier is read or written.
     */
    method IsRateLimited(identifier: string, requestType: string, now: int, maxAttempts: int, period: int)
      returns (limited: bool)
      modifies this
      ensures var key := CacheKey(requestType, identifier);
        var step := Step(old(Stored(key)), now, maxAttempts, period);
        limited == step.0 &&
        (limited ==> cache == old(cache)) &&
        (!limited ==> cache == old(cache)[key := step.1])
      ensures forall k :: k != CacheKey(requestType, identifier) ==>
        (k in cache <==> k in old(cache)) && (k in cache ==> cache[k] == old(cache)[k])
    {
      var key := CacheKey(requestType, identifier);
      var attempts := if key in cache then cache[key] else [];
      attempts := Recent(attempts, now, period);
      if |attempts| >= maxAttempts {
        return true;
      }
      attempts := attempts + [now];
      cache := cache[key := attempts];
      return false;
    }
  }

  /**
   * A call is limited exactly when `maxAttempts` recent attempts remain.
   * After an allowed call, the list written back has at most `maxAttempts`
   * entries, all less than `period` old, and ends with `now`.
   */
  lemma StepBounds(stored: seq<int>, now: int, maxAttempts: int, period: int)
    requires period > 0
    ensures Step(stored, now, maxAttempts, period).0 <==> |Recent(stored, now, period)| >= maxAttempts
    ensures var (limited, next) := Step(stored, now, maxAttempts, period);
      !limited ==>
        |next| <= maxAttempts && next[|next| - 1] == now &&
        (forall i :: 0 <= i < |next| ==> now - next[i] < period) &&
        (forall i :: 0 <= i < |next| - 1 ==> next[i] in stored)
  {
    var recent := Recent(stored, now, period);
    if |recent| < maxAttempts {
      var next := recent + [now];
      forall i | 0 <= i < |next|
        ensures now - next[i] < period && (i < |next| - 1 ==> next[i] in stored)
      {
        if i < |recent| {
          assert next[i] == recent[i] && recent[i] in recent;
        }
      }
    }
  }

  /**
   * The cache entry expires `period` after it was written. Every attempt
   * in it is at most the write time, so by then the filter would drop all
   * of them anyway: expiry never changes a result.
   */
  lemma ExpiryAgrees(stored: seq<int>, writtenAt: int, now: int, period: int)
    requires forall i :: 0 <= i < |stored| ==> stored[i] <= writtenAt
    requires now >= writtenAt + period
    ensures Recent(stored, now, period) == []
  {
  }

  // ---------------------------------------------------------------- a run of calls on one key

  /** The results of successive calls on one key, starting from an empty cache, and what is stored afterwards. */
  datatype Trace = Trace(results: seq<bool>, stored: seq<int>)

  function Run(times: seq<int>, maxAttempts: int, period: int): (t: Trace)
    ensures |t.results| == |times|
    decreases |times|
  {
    if times == [] then Trace([], [])
    else
      var prev := Run(times[..|times| - 1], maxAttempts, period);
      var step := Step(prev.stored, times[|times| - 1], maxAttempts, period);
      Trace(prev.results + [step.0], step.1)
  }

  /** The times of the calls whose result is False, in call order. */
  function Accepted(times: seq<int>, results: seq<bool>): seq<int>
    requires |times| == |results|
    decreases |times|
  {
    if times == [] then []
    else
      var n := |times| - 1;
      Accepted(times[..n], results[..n]) + (if !results[n] then [times[n]] else [])
  }

  /** How many of `xs` lie in the window `[lo, lo + width)`. */
  function WindowCount(xs: seq<int>, lo: int, width: int): nat
    decreases |xs|
  {
    if xs == [] then 0
    else
      var n := |xs| - 1;
      WindowCount(xs[..n], lo, width) + (if lo <= xs[n] < lo + width then 1 else 0)
  }

  predicate Nondecreasing(times: seq<int>) {
    forall i, j :: 0 <= i <= j < |times| ==> times[i] <= times[j]
  }

  /**
   * What holds after a run whose calls all came at or before `now`: the
   * stored list is the accepted attempts less than `period` older than the
   * latest accepted one, and no window of length `period` holds more than
   * `maxAttempts` accepted attempts.
   */
  ghost predicate RunInvariant(acc: seq<int>, stored: seq<int>, now: int, maxAttempts: int, period: int) {
    (acc == [] ==> stored == []) &&
    (acc != [] ==> stored == Recent(acc, acc[|acc| - 1], period)) &&
    (forall i :: 0 <= i < |acc| ==> acc[i] <= now) &&
    (forall lo :: WindowCount(acc, lo, period) <= maxAttempts)
  }

  /** One more call at time `now` keeps the invariant. */
  lemma StepKeepsInvariant(acc: seq<int>, stored: seq<int>, now: int, maxAttempts: int, period: int)
    requires period > 0 && RunInvariant(acc, stored, now, maxAttempts, period)
    ensures var step := Step(stored, now, maxAttempts, period);
      RunInvariant(acc + (if !step.0 then [now] else []), step.1, now, maxAttempts, period)
  {
    var step := Step(stored, now, maxAttempts, period);
    var recent := Recent(stored, now, period);
    if acc == [] {
      assert recent == [] == Recent(acc, now, period);
    } else {
      RecentOfRecent(acc, acc[|acc| - 1], now, period);
    }
    assert recent == Recent(acc, now, period);
    if !step.0 {
      var acc' := acc + [now];
      assert acc' == acc + (if !step.0 then [now] else []);
      RecentAppendNow(acc, now, period);
      assert acc'[|acc'| - 1] == now;
      assert step.1 == recent + [now] == Recent(acc', now, period);
      forall i | 0 <= i < |acc'|
        ensures acc'[i] <= now
      {
        if i < |acc| {
          assert acc'[i] == acc[i];
        }
      }
      forall lo
        ensures WindowCount(acc', lo, period) <= maxAttempts
      {
        WindowCountAppend(acc, now, lo, period);
        if lo <= now < lo + period {
          WindowWithinRecent(acc, lo, now, period);
        }
      }
      assert acc' != [] && step.1 == Recent(acc', acc'[|acc'| - 1], period);
      assert RunInvariant(acc', step.1, now, maxAttempts, period);
    } else {
      assert step.1 == stored;
      assert acc + [] == acc;
    }
  }

  /** Unfolding `Run` and `Accepted` at the last call. */
  lemma RunLast(times: seq<int>, maxAttempts: int, period: int)
    requires times != []
    ensures var n := |times| - 1;
      var prev := Run(times[..n], maxAttempts, period);
      var step := Step(prev.stored, times[n], maxAttempts, period);
      Run(times, maxAttempts, period) == Trace(prev.results + [step.0], step.1) &&
      Accepted(times, Run(times, maxAttempts, period).results)
        == Accepted(times[..n], prev.results) + (if !step.0 then [times[n]] else [])
  {
    var n := |times| - 1;
    var prev := Run(times[..n], maxAttempts, period);
    var step := Step(prev.stored, times[n], maxAttempts, period);
    assert (prev.results + [step.0])[..n] == prev.results;
  }

  /** Every run of calls at or before `now`, at nondecreasing times, ends in the invariant. */
  lemma {:induction false} RunKeepsInvariant(times: seq<int>, now: int, maxAttempts: int, period: int)
    requires Nondecreasing(times) && period > 0 && maxAttempts >= 0
    requires forall i :: 0 <= i < |times| ==> times[i] <= now
    ensures var t := Run(times, maxAttempts, period);
      RunInvariant(Accepted(times, t.results), t.stored, now, maxAttempts, period)
    decreases |times|
  {
    if times != [] {
      var n := |times| - 1;
      var ts := times[..n];
      assert Nondecreasing(ts);
      RunKeepsInvariant(ts, times[n], maxAttempts, period);
      var prev := Run(ts, maxAttempts, period);
      StepKeepsInvariant(Accepted(ts, prev.results), prev.stored, times[n], maxAttempts, period);
      RunLast(times, maxAttempts, period);
      assert times[n] <= now;
    }
  }

  /** For calls on one key at nondecreasing times, at most `maxAttempts` of them return False in any window of length `period`. */
  lemma SlidingWindowBound(times: seq<int>, maxAttempts: int, period: int, lo: int)
    requires Nondecreasing(times) && period > 0 && maxAttempts >= 0
    ensures WindowCount(Accepted(times, Run(times, maxAttempts, period).results), lo, period) <= maxAttempts
  {
    var now := if times == [] then 0 else times[|times| - 1];
    RunKeepsInvariant(times, now, maxAttempts, period);
  }

  /** Filtering at an earlier time and then at a later one is filtering at the later one. */
  lemma {:induction false} RecentOfRecent(xs: seq<int>, earlier: int, now: int, period: int)
    requires earlier <= now
    ensures Recent(Recent(xs, earlier, period), now, period) == Recent(xs, now, period)
    decreases |xs|
  {
    if xs != [] {
      var n := |xs| - 1;
      RecentOfRecent(xs[..n], earlier, now, period);
      var inner := Recent(xs[..n], earlier, period);
      assert xs == xs[..n] + [xs[n]];
      assert Recent(xs, earlier, period) == inner + (if earlier - xs[n] < period then [xs[n]] else []);
      assert Recent(xs, now, period) == Recent(xs[..n], now, period) + (if now - xs[n] < period then [xs[n]] else []);
      if earlier - xs[n] < period {
        var r := inner + [xs[n]];
        assert r[..|r| - 1] == inner;
        assert Recent(r, now, period) == Recent(inner, now, period) + (if now - xs[n] < period then [xs[n]] else []);
      } else {
        assert Recent(xs, now, period) == Recent(xs[..n], now, period) + [];
        assert Recent(xs[..n], now, period) + [] == Recent(xs[..n], now, period);
        assert inner + [] == inner;
      }
    }
  }

  /** Appending the current time keeps it in the filter. */
  lemma RecentAppendNow(xs: seq<int>, now: int, period: int)
    requires period > 0
    ensures Recent(xs + [now], now, period) == Recent(xs, now, period) + [now]
  {
    assert (xs + [now])[..|xs|] == xs;
  }

  lemma WindowCountAppend(xs: seq<int>, x: int, lo: int, width: int)
    ensures WindowCount(xs + [x], lo, width) == WindowCount(xs, lo, width) + (if lo <= x < lo + width then 1 else 0)
  {
    assert (xs + [x])[..|xs|] == xs;
  }

  /** A window that starts after `now - period` holds no more entries than survive the filter at `now`. */
  lemma {:induction false} WindowWithinRecent(xs: seq<int>, lo: int, now: int, period: int)
    requires now - period < lo
    ensures WindowCount(xs, lo, period) <= |Recent(xs, now, period)|
    decreases |xs|
  {
    if xs != [] {
      WindowWithinRecent(xs[..|xs| - 1], lo, now, period);
    }
  }
}
