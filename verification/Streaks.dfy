/**
 Counters whose every increment renews their time to live: such a counter holds the length of
 the current streak, the increments since the last silence longer than the time to live.
 */
module Streaks {
  import opened Common
  import opened MemoryCache

  ghost predicate Ascending(times: seq<real>) {
    forall i, j :: 0 <= i < j < |times| ==> times[i] <= times[j]
  }

  function LastOf(times: seq<real>): real
    requires times != []
  {
    times[|times| - 1]
  }

  /** The number of increments since the last gap longer than `ttl`. */
  function Streak(times: seq<real>, ttl: real): nat {
    if times == [] then 0
    else
      var before := times[..|times| - 1];
      if before != [] && LastOf(times) - LastOf(before) <= ttl then Streak(before, ttl) + 1 else 1
  }

  function StreakWith(times: seq<real>, now: real, ttl: real): nat {
    if times != [] && now - LastOf(times) <= ttl then Streak(times, ttl) + 1 else 1
  }

  lemma StreakAppend(times: seq<real>, now: real, ttl: real)
    ensures Streak(times + [now], ttl) == StreakWith(times, now, ttl)
  {
    assert (times + [now])[..|times|] == times;
  }

  /** Increments at or after `from`. */
  function Since(times: seq<real>, from: real): nat {
    if times == [] || LastOf(times) < from then 0 else 1 + Since(times[..|times| - 1], from)
  }

  lemma SinceAppend(times: seq<real>, now: real, from: real)
    ensures Since(times + [now], from) == if now < from then 0 else 1 + Since(times, from)
  {
    assert (times + [now])[..|times|] == times;
  }

  /** A streak covers every increment of a window no longer than the time to live. */
  lemma {:induction false} StreakCoversWindow(times: seq<real>, ttl: real, from: real)
    requires Ascending(times) && (times != [] ==> LastOf(times) - from <= ttl)
    ensures Streak(times, ttl) >= Since(times, from)
  {
    if times != [] {
      var before := times[..|times| - 1];
      if before != [] {
        assert LastOf(before) == times[|times| - 2];
        StreakCoversWindow(before, ttl, from);
      }
    }
  }

  /** The cache entry of a counter incremented at `times` and otherwise left alone. */
  ghost predicate Counts<K(!new)>(c: Cache<K>, key: K, times: seq<real>, ttl: real, now: real) {
    && (key in c.expiry ==> key in c.values)
    && (key in c.values ==>
          && times != [] && c.values[key] == Int(Streak(times, ttl))
          && key in c.expiry && c.expiry[key] == LastOf(times) + ttl)
    && (times != [] && now <= LastOf(times) + ttl ==> key in c.values)
    && (times != [] ==> LastOf(times) <= now)
  }

  /** One increment returns the streak it completes, swept or not. */
  lemma IncrementCounts<K(!new)>(c: Cache<K>, key: K, times: seq<real>, ttl: real, earlier: real, now: real)
    requires ttl > 0.0 && earlier <= now && Counts(c, key, times, ttl, earlier)
    ensures var (c', reply) := Do(c, Op.Incr(key, Some(ttl)), now);
            && reply == Count(Streak(times + [now], ttl))
            && Counts(c', key, times + [now], ttl, now)
  {
    StreakAppend(times, now, ttl);
  }

  /** Other keys' increments, and sweeps, leave the counter as it is. */
  lemma OthersKeepCount<K(!new)>(c: Cache<K>, key: K, times: seq<real>, ttl: real, earlier: real, now: real, other: K)
    requires earlier <= now && Counts(c, key, times, ttl, earlier)
    ensures other != key ==> Counts(Do(c, Op.Incr(other, Some(ttl)), now).0, key, times, ttl, now)
    ensures Counts(Swept(c, now), key, times, ttl, now)
  {
  }
}
