/**
 The request limiter over the in-process cache: a quota per client and path, and one per client.
 The two increments of a request are separate steps, so requests of several threads interleave.
 */
module RateLimit {
  import opened Common
  import opened MemoryCache
  import opened Streaks

  const WINDOW := 60.0
  const PATH_KEY_MAX_LEN := 512
  const EXEMPT_PATHS := {"/metrics", "/api/v1/healthz", "/api/v1/readyz", "/api/v1/health"}

  datatype Key = PathKey(ip: string, path: string) | IpKey(ip: string)

  // ------------------------------------------------------------------ one increment at a time

  datatype Event =
    | Arrive(id: nat, ip: string, path: string, now: real)  // a request counts on its path
    | Proceed(id: nat, now: real)                           // if let by, it counts on its client
    | Sweeping(now: real)

  /** The cache, and the clients of the requests between their two increments. */
  datatype System = System(cache: Cache<Key>, passed: map<nat, string>)

  const IDLE := System(Cache(map[], map[]), map[])

  /** One increment: which counter, when, and whether its quota is then exceeded. */
  datatype Entry = Entry(key: Key, now: real, over: bool)

  /** The counter an event increments, if any. */
  function Target(passed: map<nat, string>, e: Event): Option<Key> {
    match e
    case Arrive(id, ip, path, _) => if id in passed then None else Some(PathKey(ip, path))
    case Proceed(id, _) => if id in passed then Some(IpKey(passed[id])) else None
    case Sweeping(_) => None
  }

  function Passed(passed: map<nat, string>, e: Event, over: bool): map<nat, string>
    requires Target(passed, e).Some?
  {
    if e.Proceed? then passed - {e.id} else if over then passed else passed[e.id := e.ip]
  }

  /** What an event does, and the increment it makes. */
  function Step(s: System, n: int, e: Event): (System, seq<Entry>) {
    match Target(s.passed, e)
    case None => (if e.Sweeping? then s.(cache := Swept(s.cache, e.now)) else s, [])
    case Some(key) =>
      var (cache, count) := Do(s.cache, Op.Incr(key, Some(WINDOW)), e.now);
      var over := count.Count? && count.n > n;
      (System(cache, Passed(s.passed, e, over)), [Entry(key, e.now, over)])
  }

  /** A sweep drops the counters that have expired, and counts nothing. */
  lemma SweepInWords(s: System, n: int, now: real, key: Key)
    ensures var (t, log) := Step(s, n, Event.Sweeping(now));
            && log == [] && t.passed == s.passed
            && (key in t.cache.values <==> key in s.cache.values && !(key in s.cache.expiry && now > s.cache.expiry[key]))
            && (key in t.cache.values ==> t.cache.values[key] == s.cache.values[key])
  {
  }

  function LogOf(s: System, n: int, events: seq<Event>): seq<Entry>
    decreases |events|
  {
    if events == [] then [] else Step(s, n, events[0]).1 + LogOf(Step(s, n, events[0]).0, n, events[1..])
  }

  // ------------------------------------------------------------------ one request

  datatype Verdict = Allowed | PathRefused | IpRefused

  function WithoutSlashes(path: string): string {
    if path != [] && path[|path| - 1] == '/' then WithoutSlashes(path[..|path| - 1]) else path
  }

  predicate Exempt(enabled: bool, options: bool, path: string) {
    !enabled || WithoutSlashes(path) in EXEMPT_PATHS || options
  }

  /** Long paths are replaced by their digest. */
  function PathPart(path: string, digest: string): string {
    if |path| <= PATH_KEY_MAX_LEN then path else digest
  }

  /** The two steps of a request that nothing comes between. */
  function Checked(c: Cache<Key>, n: int, ip: string, path: string, now: real, later: real): (Cache<Key>, Verdict) {
    var (s1, first) := Step(System(c, map[]), n, Arrive(0, ip, path, now));
    if first[0].over then (s1.cache, PathRefused)
    else
      var (s2, second) := Step(s1, n, Proceed(0, later));
      (s2.cache, if second[0].over then IpRefused else Allowed)
  }

  method RateLimitCheck(cache: SimpleMemoryCache<Key>, n: int, enabled: bool, options: bool, ip: string, path: string,
                        digest: string, now: real, later: real)
    returns (verdict: Verdict)
    modifies cache
    ensures Exempt(enabled, options, path) ==> cache.State() == old(cache.State()) && verdict == Allowed
    ensures !Exempt(enabled, options, path) ==>
              var client := if ip == "" then "unknown" else ip;
              (cache.State(), verdict) == Checked(old(cache.State()), n, client, PathPart(path, digest), now, later)
  {
    if !enabled {
      return Allowed;
    }
    if WithoutSlashes(path) in EXEMPT_PATHS {
      return Allowed;
    }
    if options {
      return Allowed;
    }
    var client := if ip == "" then "unknown" else ip;
    var hits := cache.Incr(PathKey(client, PathPart(path, digest)), Some(WINDOW), now);
    if hits > n {
      return PathRefused;
    }
    var total := cache.Incr(IpKey(client), Some(WINDOW), later);
    return if total > n then IpRefused else Allowed;
  }

  // ------------------------------------------------------------------ what the log says

  /** When a counter was incremented. */
  function TimesOn(log: seq<Entry>, key: Key): seq<real> {
    if log == [] then []
    else
      var last := log[|log| - 1];
      TimesOn(log[..|log| - 1], key) + if last.key == key then [last.now] else []
  }

  lemma TimesAppend(log: seq<Entry>, e: Entry, key: Key)
    ensures TimesOn(log + [e], key) == TimesOn(log, key) + if e.key == key then [e.now] else []
  {
    assert (log + [e])[..|log|] == log;
  }

  ghost predicate InOrder(events: seq<Event>, from: real)
    decreases |events|
  {
    events != [] ==> from <= events[0].now && InOrder(events[1..], events[0].now)
  }

  ghost predicate LogInOrder(log: seq<Entry>) {
    forall i, j :: 0 <= i < j < |log| ==> log[i].now <= log[j].now
  }

  /** Each increment is judged by the streak of hits that it ends. */
  predicate JudgedAt(log: seq<Entry>, n: int, k: int)
    requires 0 <= k < |log|
  {
    log[k].over <==> Streak(TimesOn(log[..k + 1], log[k].key), WINDOW) > n
  }

  ghost predicate JudgedByStreaks(log: seq<Entry>, n: int) {
    forall k :: 0 <= k < |log| ==> JudgedAt(log, n, k)
  }

  ghost predicate Agrees(c: Cache<Key>, log: seq<Entry>, now: real) {
    forall key :: Counts(c, key, TimesOn(log, key), WINDOW, now)
  }

  lemma HitAgrees(c: Cache<Key>, log: seq<Entry>, key: Key, from: real, now: real, over: bool)
    requires Agrees(c, log, from) && from <= now
    ensures var (c', reply) := Do(c, Op.Incr(key, Some(WINDOW)), now);
            var log' := log + [Entry(key, now, over)];
            Agrees(c', log', now) && reply == Count(Streak(TimesOn(log', key), WINDOW))
  {
    var c' := Do(c, Op.Incr(key, Some(WINDOW)), now).0;
    var log' := log + [Entry(key, now, over)];
    TimesAppend(log, Entry(key, now, over), key);
    IncrementCounts(c, key, TimesOn(log, key), WINDOW, from, now);
    forall k ensures Counts(c', k, TimesOn(log', k), WINDOW, now) {
      TimesAppend(log, Entry(key, now, over), k);
      if k == key {
        assert TimesOn(log', k) == TimesOn(log, key) + [now];
      } else {
        assert TimesOn(log', k) == TimesOn(log, k);
        OthersKeepCount(c, k, TimesOn(log, k), WINDOW, from, now, key);
      }
    }
  }

  lemma IdleAgrees(c: Cache<Key>, log: seq<Entry>, from: real, now: real)
    requires Agrees(c, log, from) && from <= now
    ensures Agrees(c, log, now) && Agrees(Swept(c, now), log, now)
  {
    forall k ensures Counts(c, k, TimesOn(log, k), WINDOW, now) && Counts(Swept(c, now), k, TimesOn(log, k), WINDOW, now) {
      OthersKeepCount(c, k, TimesOn(log, k), WINDOW, from, now, k);
    }
  }

  lemma JudgedAppend(log: seq<Entry>, n: int, e: Entry)
    requires JudgedByStreaks(log, n) && (e.over <==> Streak(TimesOn(log + [e], e.key), WINDOW) > n)
    ensures JudgedByStreaks(log + [e], n)
  {
    var all := log + [e];
    forall k | 0 <= k < |all| ensures JudgedAt(all, n, k) {
      if k < |log| {
        assert all[..k + 1] == log[..k + 1] && JudgedAt(log, n, k);
      } else {
        assert all[..k + 1] == all;
      }
    }
  }

  ghost predicate Recorded(s: System, log: seq<Entry>, n: int, now: real) {
    && Agrees(s.cache, log, now) && JudgedByStreaks(log, n) && LogInOrder(log)
    && forall i :: 0 <= i < |log| ==> log[i].now <= now
  }

  lemma StepRecorded(s: System, log: seq<Entry>, n: int, e: Event, from: real)
    requires Recorded(s, log, n, from) && from <= e.now
    ensures Recorded(Step(s, n, e).0, log + Step(s, n, e).1, n, e.now)
  {
    match Target(s.passed, e)
    case None =>
      IdleAgrees(s.cache, log, from, e.now);
      assert log + [] == log;
    case Some(key) =>
      var entry := Step(s, n, e).1[0];
      HitAgrees(s.cache, log, key, from, e.now, entry.over);
      JudgedAppend(log, n, entry);
  }

  lemma {:induction false} RunRecorded(s: System, log: seq<Entry>, n: int, events: seq<Event>, from: real)
    requires Recorded(s, log, n, from) && InOrder(events, from)
    ensures JudgedByStreaks(log + LogOf(s, n, events), n) && LogInOrder(log + LogOf(s, n, events))
    decreases |events|
  {
    if events == [] {
      assert log + [] == log;
    } else {
      var (s', entries) := Step(s, n, events[0]);
      StepRecorded(s, log, n, events[0], from);
      RunRecorded(s', log + entries, n, events[1..], events[0].now);
      assert log + LogOf(s, n, events) == (log + entries) + LogOf(s', n, events[1..]);
    }
  }

  /** In every interleaving, wherever sweeps fall, each increment is judged by its streak. */
  lemma VerdictsAreStreaks(n: int, events: seq<Event>, from: real)
    requires InOrder(events, from)
    ensures JudgedByStreaks(LogOf(IDLE, n, events), n) && LogInOrder(LogOf(IDLE, n, events))
  {
    assert Recorded(IDLE, [], n, from);
    RunRecorded(IDLE, [], n, events, from);
    assert [] + LogOf(IDLE, n, events) == LogOf(IDLE, n, events);
  }

  // ------------------------------------------------------------------ one request's verdict

  lemma HitJudged(c: Cache<Key>, log: seq<Entry>, n: nat, key: Key, from: real, now: real)
    requires Agrees(c, log, from) && from <= now
    ensures var (d, reply) := Do(c, Op.Incr(key, Some(WINDOW)), now);
            var streak := Streak(TimesOn(log, key) + [now], 60.0);
            reply == Count(streak) && Agrees(d, log + [Entry(key, now, streak > n)], now)
  {
    var over := Streak(TimesOn(log, key) + [now], WINDOW) > n;
    HitAgrees(c, log, key, from, now, over);
    TimesAppend(log, Entry(key, now, over), key);
  }

  /**
   A request over a cache that agrees with a log is refused on its path if and only if the streak
   of the path's hits that it ends is above the quota, else on its client if and only if the
   client's streak is, and otherwise let by. The cache then agrees with the log of its hits.
   */
  lemma VerdictOfRequest(
    c: Cache<Key>, log: seq<Entry>, n: nat, ip: string, path: string, from: real, now: real, later: real,
    hits: nat, total: nat)
    requires Agrees(c, log, from) && from <= now <= later
    requires hits == Streak(TimesOn(log, PathKey(ip, path)) + [now], 60.0)
    requires total == Streak(TimesOn(log, IpKey(ip)) + [later], 60.0)
    ensures var verdict := Checked(c, n, ip, path, now, later).1;
            && (verdict == PathRefused <==> hits > n)
            && (verdict == IpRefused <==> hits <= n && total > n)
            && (verdict == Allowed <==> hits <= n && total <= n)
    ensures var onPath := log + [Entry(PathKey(ip, path), now, hits > n)];
            if hits > n then Agrees(Checked(c, n, ip, path, now, later).0, onPath, now)
            else Agrees(Checked(c, n, ip, path, now, later).0, onPath + [Entry(IpKey(ip), later, total > n)], later)
  {
    HitJudged(c, log, n, PathKey(ip, path), from, now);
    var first := Do(c, Op.Incr(PathKey(ip, path), Some(WINDOW)), now);
    RefusedOnPath(c, n, ip, path, now, later, first.0, hits);
    if hits <= n {
      TimesAppend(log, Entry(PathKey(ip, path), now, false), IpKey(ip));
      HitJudged(first.0, log + [Entry(PathKey(ip, path), now, false)], n, IpKey(ip), now, later);
      var second := Do(first.0, Op.Incr(IpKey(ip), Some(WINDOW)), later);
      JudgedOnClient(c, n, ip, path, now, later, first.0, second.0, hits, total);
    }
  }

  lemma RefusedOnPath(
    c: Cache<Key>, n: nat, ip: string, path: string, now: real, later: real, c1: Cache<Key>, hits: int)
    requires Do(c, Op.Incr(PathKey(ip, path), Some(WINDOW)), now) == (c1, Count(hits))
    ensures hits > n ==> Checked(c, n, ip, path, now, later) == (c1, PathRefused)
    ensures hits <= n ==> Checked(c, n, ip, path, now, later).1 != PathRefused
  {
  }

  lemma JudgedOnClient(
    c: Cache<Key>, n: nat, ip: string, path: string, now: real, later: real, c1: Cache<Key>, c2: Cache<Key>,
    hits: int, total: int)
    requires Do(c, Op.Incr(PathKey(ip, path), Some(WINDOW)), now) == (c1, Count(hits)) && hits <= n
    requires Do(c1, Op.Incr(IpKey(ip), Some(WINDOW)), later) == (c2, Count(total))
    ensures Checked(c, n, ip, path, now, later) == (c2, if total > n then IpRefused else Allowed)
  {
  }

  /** A request is exempt by switch, by method, or on one of four paths with any slashes behind it. */
  lemma {:induction false} ExemptMeans(enabled: bool, options: bool, path: string)
    ensures Exempt(enabled, options, path) <==>
            || !enabled || options
            || exists k: nat :: k <= |path| && path[..k] in {"/metrics", "/api/v1/healthz", "/api/v1/readyz", "/api/v1/health"}
                                && forall i :: k <= i < |path| ==> path[i] == '/'
  {
    StrippedMeans(path);
    var bare := WithoutSlashes(path);
    if bare in EXEMPT_PATHS {
      assert path[..|bare|] == bare;
    }
    if k: nat :| k <= |path| && path[..k] in EXEMPT_PATHS && forall i :: k <= i < |path| ==> path[i] == '/' {
      assert path[..k][k - 1] == path[k - 1] != '/';
      assert k == |bare| && path[..k] == bare;
    }
  }

  lemma {:induction false} StrippedMeans(path: string)
    ensures var bare := WithoutSlashes(path);
            && bare <= path && (bare != [] ==> bare[|bare| - 1] != '/')
            && forall i :: |bare| <= i < |path| ==> path[i] == '/'
    decreases |path|
  {
    if path != [] && path[|path| - 1] == '/' {
      StrippedMeans(path[..|path| - 1]);
    }
  }

  /** Paths of up to 512 characters have counters of their own; a longer one counts under its digest. */
  lemma CounterOfPath(path: string, digest: string)
    ensures PathPart(path, digest) == if |path| > 512 then digest else path
  {
  }

  // ------------------------------------------------------------------ the window

  /** Increments of a counter within its quota, at a time in [lo, hi]. */
  function Within(log: seq<Entry>, key: Key, lo: real, hi: real): nat {
    if log == [] then 0
    else
      var last := log[|log| - 1];
      Within(log[..|log| - 1], key, lo, hi) + if last.key == key && !last.over && lo <= last.now <= hi then 1 else 0
  }

  lemma {:induction false} TimesAscend(log: seq<Entry>, key: Key)
    requires LogInOrder(log)
    ensures Ascending(TimesOn(log, key))
    ensures forall t :: t in TimesOn(log, key) ==> log != [] && t <= log[|log| - 1].now
  {
    if log != [] {
      var front := log[..|log| - 1];
      TimesAscend(front, key);
      assert front != [] ==> front[|front| - 1].now <= log[|log| - 1].now;
      var times := TimesOn(front, key);
      assert forall i :: 0 <= i < |times| ==> times[i] in times;
    }
  }

  lemma {:induction false} WithinSince(log: seq<Entry>, key: Key, lo: real, hi: real)
    requires LogInOrder(log)
    ensures Within(log, key, lo, hi) <= Since(TimesOn(log, key), lo)
  {
    if log != [] {
      var front, last := log[..|log| - 1], log[|log| - 1];
      WithinSince(front, key, lo, hi);
      SinceAppend(TimesOn(front, key), last.now, lo);
      assert last.key != key ==> TimesOn(log, key) == TimesOn(front, key);
      if last.now < lo {
        TimesBefore(log, key, lo);
      }
    }
  }

  lemma TimesBefore(log: seq<Entry>, key: Key, lo: real)
    requires LogInOrder(log) && log != [] && log[|log| - 1].now < lo
    ensures Since(TimesOn(log[..|log| - 1], key), lo) == 0
  {
    var front := log[..|log| - 1];
    var times := TimesOn(front, key);
    TimesAscend(front, key);
    assert front != [] ==> front[|front| - 1].now <= log[|log| - 1].now;
    assert times != [] ==> LastOf(times) in times;
  }

  lemma {:induction false} LogWindow(log: seq<Entry>, n: nat, key: Key, lo: real, hi: real)
    requires JudgedByStreaks(log, n) && LogInOrder(log) && hi - lo <= WINDOW
    ensures Within(log, key, lo, hi) <= n
  {
    if log != [] {
      var front, last := log[..|log| - 1], log[|log| - 1];
      if last.key == key && !last.over && lo <= last.now <= hi {
        assert JudgedAt(log, n, |log| - 1) && log[..|log|] == log;
        TimesAscend(log, key);
        StreakCoversWindow(TimesOn(log, key), WINDOW, lo);
        WithinSince(log, key, lo, hi);
      } else {
        forall k | 0 <= k < |front| ensures JudgedAt(front, n, k) {
          assert front[..k + 1] == log[..k + 1] && JudgedAt(log, n, k);
        }
        LogWindow(front, n, key, lo, hi);
      }
    }
  }

  /**
   Over every interleaving of requests under a clock that does not go back, any closed interval
   of sixty seconds holds at most `n` increments within their quota of each counter: requests
   let by on one path, and requests admitted of one client.
   */
  lemma AtMostNPerWindow(n: nat, events: seq<Event>, key: Key, lo: real, hi: real, from: real)
    requires InOrder(events, from) && hi - lo <= WINDOW
    ensures Within(LogOf(IDLE, n, events), key, lo, hi) <= n
  {
    VerdictsAreStreaks(n, events, from);
    LogWindow(LogOf(IDLE, n, events), n, key, lo, hi);
  }

  // ------------------------------------------------------------------ when the quota refuses

  /** Hits i to j, each within the window of the one before. */
  predicate Chain(times: seq<real>, i: int, j: int)
    requires 0 <= i <= j < |times|
  {
    forall m :: i < m <= j ==> times[m] - times[m - 1] <= WINDOW
  }

  ghost predicate LongChain(times: seq<real>, n: int) {
    exists i, j :: 0 <= i <= j < |times| && j - i + 1 > n && Chain(times, i, j)
  }

  predicate ChainToEnd(times: seq<real>, i: int)
    requires 0 <= i < |times|
  {
    Chain(times, i, |times| - 1)
  }

  /** A streak is the longest chain that ends with the last hit. */
  lemma {:induction false} StreakIsChain(times: seq<real>)
    requires times != []
    ensures 1 <= Streak(times, WINDOW) <= |times|
    ensures forall i :: 0 <= i < |times| ==> (ChainToEnd(times, i) <==> |times| - i <= Streak(times, WINDOW))
  {
    var last := |times| - 1;
    if last > 0 {
      var before := times[..last];
      StreakIsChain(before);
      forall i | 0 <= i < |times|
        ensures ChainToEnd(times, i) <==> |times| - i <= Streak(times, WINDOW)
      {
        if i < last {
          ChainCut(times, i);
          assert ChainToEnd(before, i) <==> |before| - i <= Streak(before, WINDOW);
        }
      }
    }
  }

  lemma ChainCut(times: seq<real>, i: int)
    requires 0 <= i < |times| - 1
    ensures ChainToEnd(times, i) <==>
            ChainToEnd(times[..|times| - 1], i) && times[|times| - 1] - times[|times| - 2] <= WINDOW
  {
  }

  lemma {:induction false} LongChainCut(times: seq<real>, n: int)
    requires times != []
    ensures LongChain(times, n) <==> LongChain(times[..|times| - 1], n) || Streak(times, WINDOW) > n
  {
    var last := |times| - 1;
    var before := times[..last];
    StreakIsChain(times);
    if i, j :| 0 <= i <= j < |times| && j - i + 1 > n && Chain(times, i, j) {
      assert j < last ==> Chain(before, i, j);
      assert j == last ==> ChainToEnd(times, i);
    }
    if i, j :| 0 <= i <= j < |before| && j - i + 1 > n && Chain(before, i, j) {
      assert Chain(times, i, j);
    }
    if Streak(times, WINDOW) > n {
      var i := |times| - Streak(times, WINDOW);
      assert ChainToEnd(times, i) && Chain(times, i, last);
    }
  }

  ghost predicate NeverOver(log: seq<Entry>, key: Key) {
    forall k :: 0 <= k < |log| && log[k].key == key ==> !log[k].over
  }

  lemma {:induction false} LogQuota(log: seq<Entry>, n: nat, key: Key)
    requires JudgedByStreaks(log, n)
    ensures NeverOver(log, key) <==> !LongChain(TimesOn(log, key), n)
  {
    if log != [] {
      var front, last := log[..|log| - 1], log[|log| - 1];
      forall k | 0 <= k < |front| ensures JudgedAt(front, n, k) {
        assert front[..k + 1] == log[..k + 1] && JudgedAt(log, n, k);
      }
      LogQuota(front, n, key);
      assert JudgedAt(log, n, |log| - 1) && log[..|log|] == log;
      NeverOverLast(log, key);
      if last.key == key {
        var times := TimesOn(log, key);
        assert times == TimesOn(front, key) + [last.now];
        assert times[..|times| - 1] == TimesOn(front, key);
        LongChainCut(times, n);
      } else {
        assert TimesOn(log, key) == TimesOn(front, key);
      }
    }
  }

  lemma NeverOverLast(log: seq<Entry>, key: Key)
    requires log != []
    ensures var last := log[|log| - 1];
            NeverOver(log, key) <==> NeverOver(log[..|log| - 1], key) && !(last.key == key && last.over)
  {
    var front := log[..|log| - 1];
    assert forall k :: 0 <= k < |front| ==> front[k] == log[k];
  }

  /** The requests of one client on one path, by their arrival. */
  function Arrivals(events: seq<Event>, ip: string, path: string): seq<real> {
    if events == [] then []
    else
      var e := events[0];
      (if e.Arrive? && e.ip == ip && e.path == path then [e.now] else []) + Arrivals(events[1..], ip, path)
  }

  /** Every request arrives once. */
  ghost predicate OwnIds(passed: map<nat, string>, events: seq<Event>)
    decreases |events|
  {
    && (forall i, j :: 0 <= i < j < |events| && events[i].Arrive? && events[j].Arrive? ==> events[i].id != events[j].id)
    && (forall i :: 0 <= i < |events| && events[i].Arrive? ==> events[i].id !in passed)
  }

  lemma {:induction false} ArrivalsAreHits(s: System, n: int, events: seq<Event>, ip: string, path: string)
    requires OwnIds(s.passed, events)
    ensures TimesOn(LogOf(s, n, events), PathKey(ip, path)) == Arrivals(events, ip, path)
    decreases |events|
  {
    if events != [] {
      var (s', entries) := Step(s, n, events[0]);
      forall i | 0 <= i < |events| - 1 && events[1..][i].Arrive? ensures events[1..][i].id !in s'.passed {
        assert events[1..][i] == events[i + 1];
      }
      ArrivalsAreHits(s', n, events[1..], ip, path);
      if entries != [] {
        TimesPrepend(entries[0], LogOf(s', n, events[1..]), PathKey(ip, path));
      } else {
        assert [] + LogOf(s', n, events[1..]) == LogOf(s', n, events[1..]);
      }
    }
  }

  lemma {:induction false} TimesPrepend(e: Entry, log: seq<Entry>, key: Key)
    ensures TimesOn([e] + log, key) == (if e.key == key then [e.now] else []) + TimesOn(log, key)
  {
    var all := [e] + log;
    if log == [] {
      assert all[..0] == [];
    } else {
      assert all[..|all| - 1] == [e] + log[..|log| - 1];
      TimesPrepend(e, log[..|log| - 1], key);
    }
  }

  /**
   The path quota lets every request by if and only if no more than `n` of them follow one
   another at gaps of at most sixty seconds: it is not a count per fixed window.
   */
  lemma PathQuotaIff(n: nat, events: seq<Event>, ip: string, path: string, from: real)
    requires InOrder(events, from) && OwnIds(map[], events)
    ensures NeverOver(LogOf(IDLE, n, events), PathKey(ip, path)) <==> !LongChain(Arrivals(events, ip, path), n)
  {
    VerdictsAreStreaks(n, events, from);
    LogQuota(LogOf(IDLE, n, events), n, PathKey(ip, path));
    ArrivalsAreHits(IDLE, n, events, ip, path);
  }

  /** How many of the hits a window that opens at `lo` holds. */
  function InWindow(times: seq<real>, lo: real): nat {
    if times == [] then 0 else (if lo <= times[0] <= lo + WINDOW then 1 else 0) + InWindow(times[1..], lo)
  }

  lemma ArrivalsHead(e: Event, events: seq<Event>, ip: string, path: string, from: real)
    requires e.now >= from && InOrder(events, e.now)
    ensures InOrder([e] + events, from)
    ensures Arrivals([e] + events, ip, path)
         == (if e.Arrive? && e.ip == ip && e.path == path then [e.now] else []) + Arrivals(events, ip, path)
  {
    assert ([e] + events)[1..] == events;
  }

  /** Three requests fifty seconds apart against a quota of two: one is refused, in no full window. */
  lemma SteadyClientRefused(ip: string, path: string)
    ensures var events := [Arrive(0, ip, path, 0.0), Proceed(0, 0.0), Arrive(1, ip, path, 50.0), Proceed(1, 50.0),
                           Arrive(2, ip, path, 100.0)];
            && !NeverOver(LogOf(IDLE, 2, events), PathKey(ip, path))
            && forall lo :: InWindow(Arrivals(events, ip, path), lo) <= 2
  {
    var a, b, c := Arrive(0, ip, path, 0.0), Arrive(1, ip, path, 50.0), Arrive(2, ip, path, 100.0);
    var events := [a, Proceed(0, 0.0), b, Proceed(1, 50.0), c];
    ArrivalsHead(c, [], ip, path, 50.0);
    ArrivalsHead(Proceed(1, 50.0), [c], ip, path, 50.0);
    ArrivalsHead(b, [Proceed(1, 50.0), c], ip, path, 0.0);
    ArrivalsHead(Proceed(0, 0.0), [b, Proceed(1, 50.0), c], ip, path, 0.0);
    ArrivalsHead(a, [Proceed(0, 0.0), b, Proceed(1, 50.0), c], ip, path, 0.0);
    assert [c] + [] == [c] && [Proceed(1, 50.0)] + [c] == [Proceed(1, 50.0), c];
    assert [b] + [Proceed(1, 50.0), c] == [b, Proceed(1, 50.0), c];
    assert [Proceed(0, 0.0)] + [b, Proceed(1, 50.0), c] == [Proceed(0, 0.0), b, Proceed(1, 50.0), c];
    assert [a] + [Proceed(0, 0.0), b, Proceed(1, 50.0), c] == events;
    var times := Arrivals(events, ip, path);
    assert times == [0.0, 50.0, 100.0];
    assert Chain(times, 0, 2);
    PathQuotaIff(2, events, ip, path, 0.0);
    forall lo ensures InWindow(times, lo) <= 2 {
      ThreeHits(lo);
    }
  }

  lemma ThreeHits(lo: real)
    ensures InWindow([0.0, 50.0, 100.0], lo) <= 2
  {
    var times := [0.0, 50.0, 100.0];
    assert times[1..] == [50.0, 100.0] && times[1..][1..] == [100.0] && times[1..][1..][1..] == [];
    assert InWindow([100.0], lo) <= 1;
    assert InWindow([50.0, 100.0], lo) <= 2;
  }

  // ------------------------------------------------------------------ refused once, refused again

  /** From the i-th to the k-th increment, the hits on a counter leave no gap above the window. */
  ghost predicate NoSilence(log: seq<Entry>, key: Key, i: int, k: int)
    requires 0 <= i <= k < |log|
  {
    var first, times := |TimesOn(log[..i + 1], key)|, TimesOn(log[..k + 1], key);
    forall m :: first <= m < |times| && m > 0 ==> times[m] - times[m - 1] <= WINDOW
  }

  lemma {:induction false} TimesGrow(log: seq<Entry>, key: Key, i: nat, k: nat)
    requires i <= k <= |log|
    ensures TimesOn(log[..i], key) <= TimesOn(log[..k], key)
    decreases k
  {
    if i < k {
      TimesGrow(log, key, i, k - 1);
      assert log[..k][..k - 1] == log[..k - 1];
    }
  }

  lemma {:induction false} StreakGoesOn(times: seq<real>, more: seq<real>)
    requires times != [] && times <= more
    requires forall m :: |times| <= m < |more| ==> more[m] - more[m - 1] <= WINDOW
    ensures Streak(more, WINDOW) >= Streak(times, WINDOW)
    decreases |more|
  {
    if |times| < |more| {
      StreakGoesOn(times, more[..|more| - 1]);
    } else {
      assert times == more;
    }
  }

  /** A counter that was over its quota stays over until it is left alone for longer than the window. */
  lemma StaysBlocked(n: nat, events: seq<Event>, from: real, i: nat, k: nat)
    requires InOrder(events, from) && i <= k < |LogOf(IDLE, n, events)|
    requires var log := LogOf(IDLE, n, events);
             log[i].over && log[k].key == log[i].key && NoSilence(log, log[i].key, i, k)
    ensures LogOf(IDLE, n, events)[k].over
  {
    var log := LogOf(IDLE, n, events);
    VerdictsAreStreaks(n, events, from);
    assert JudgedAt(log, n, i) && JudgedAt(log, n, k);
    StreakKept(log, log[i].key, i, k);
  }

  lemma StreakKept(log: seq<Entry>, key: Key, i: nat, k: nat)
    requires i <= k < |log| && log[i].key == key && NoSilence(log, key, i, k)
    ensures Streak(TimesOn(log[..k + 1], key), WINDOW) >= Streak(TimesOn(log[..i + 1], key), WINDOW)
  {
    TimesGrow(log, key, i + 1, k + 1);
    assert log[..i + 1][..i] == log[..i];
    StreakGoesOn(TimesOn(log[..i + 1], key), TimesOn(log[..k + 1], key));
  }
}
