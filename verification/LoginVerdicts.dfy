/** What a verdict says: a lock was earned by failures since the last success, and is not yet over. */
module LoginVerdicts {
  import opened Common
  import opened MemoryCache
  import opened Streaks
  import opened LoginGuard

  /** When the checks failed that no success has come behind, by the log alone. */
  function FailsSince(log: seq<Entry>): seq<real> {
    if log == [] then []
    else
      var before, last := FailsSince(log[..|log| - 1]), log[|log| - 1];
      match last.verdict
      case Welcome => []
      case Invalid => before + [last.now]
      case Locked => before
  }

  /**
   With this failure the limit is reached: at least `maxFails` checks have failed since the last
   success, each no longer than the lock's length behind the one before.
   */
  ghost predicate Earned(log: seq<Entry>, j: int, l: Limits) {
    0 <= j < |log| && log[j].verdict == Invalid && Streak(FailsSince(log[..j + 1]), l.lock) >= l.maxFails
  }

  /** Entry i finds the lock that entry j has set. */
  ghost predicate LockedBy(log: seq<Entry>, i: int, j: int, l: Limits) {
    0 <= j < i < |log| && Earned(log, j, l) && log[j].now <= log[i].now < log[j].now + l.lock
  }

  ghost predicate AllEarned(log: seq<Entry>, l: Limits) {
    forall i :: 0 <= i < |log| && log[i].verdict == Locked ==> exists j :: LockedBy(log, i, j, l)
  }

  predicate Ends(s: seq<real>, whole: seq<real>) {
    |s| <= |whole| && s == whole[|whole| - |s|..]
  }

  lemma {:induction false} StreakOfEnd(s: seq<real>, whole: seq<real>, ttl: real)
    requires Ends(s, whole)
    ensures Streak(s, ttl) <= Streak(whole, ttl)
    decreases |s|
  {
    if s != [] {
      var s', whole' := s[..|s| - 1], whole[..|whole| - 1];
      assert Ends(s', whole');
      StreakOfEnd(s', whole', ttl);
      assert s' != [] ==> LastOf(s') == LastOf(whole');
    }
  }

  ghost predicate LockTold(until: Option<real>, log: seq<Entry>, l: Limits) {
    until.Some? ==> exists j :: Earned(log, j, l) && until.value == log[j].now + l.lock
  }

  ghost predicate UpTo(log: seq<Entry>, from: real) {
    forall i :: 0 <= i < |log| ==> log[i].now <= from
  }

  /** The guard's failures and lock are those of the log. */
  ghost predicate Told(g: Guard, log: seq<Entry>, l: Limits, from: real) {
    Ends(g.fails, FailsSince(log)) && LockTold(g.until, log, l) && UpTo(log, from) && AllEarned(log, l)
  }

  lemma EarnedStays(log: seq<Entry>, more: seq<Entry>, j: int, l: Limits)
    requires Earned(log, j, l)
    ensures Earned(log + more, j, l)
  {
    assert (log + more)[..j + 1] == log[..j + 1];
  }

  lemma AllEarnedWith(log: seq<Entry>, e: Entry, l: Limits)
    requires AllEarned(log, l)
    requires e.verdict == Locked ==> exists j :: Earned(log, j, l) && log[j].now <= e.now < log[j].now + l.lock
    ensures AllEarned(log + [e], l)
  {
    var all := log + [e];
    forall i | 0 <= i < |all| && all[i].verdict == Locked ensures exists j :: LockedBy(all, i, j, l) {
      if i < |log| {
        assert log[i] == all[i];
        var j :| LockedBy(log, i, j, l);
        EarnedStays(log, [e], j, l);
        assert LockedBy(all, i, j, l);
      } else {
        var j :| Earned(log, j, l) && log[j].now <= e.now < log[j].now + l.lock;
        EarnedStays(log, [e], j, l);
        assert LockedBy(all, i, j, l);
      }
    }
  }

  lemma UntilStays(g: Guard, log: seq<Entry>, e: Entry, l: Limits, from: real)
    requires LockTold(g.until, log, l) && UpTo(log, from) && from <= e.now
    ensures LockTold(g.until, log + [e], l) && UpTo(log + [e], e.now)
  {
    if g.until.Some? {
      var j :| Earned(log, j, l) && g.until.value == log[j].now + l.lock;
      EarnedStays(log, [e], j, l);
      assert (log + [e])[j] == log[j];
    }
  }

  lemma FailsSinceWith(log: seq<Entry>, e: Entry)
    ensures FailsSince(log + [e]) ==
            match e.verdict
            case Welcome => []
            case Invalid => FailsSince(log) + [e.now]
            case Locked => FailsSince(log)
  {
    assert (log + [e])[..|log|] == log;
  }

  lemma EnterTold(g: Guard, log: seq<Entry>, l: Limits, n: nat, from: real, now: real)
    requires l.Valid() && Told(g, log, l, from) && from <= now
    ensures var (g', entries) := Tried(g, l, Enter(n, now)); Told(g', log + entries, l, now)
  {
    assert log + [] == log;
    if n !in g.flying && IsShut(g, now) {
      var e := Entry(Locked, now);
      FailsSinceWith(log, e);
      UntilStays(g, log, e, l, from);
      AllEarnedWith(log, e, l);
    }
  }

  lemma WelcomeTold(g: Guard, log: seq<Entry>, l: Limits, flying: set<nat>, from: real, now: real)
    requires Told(g, log, l, from) && from <= now
    ensures Told(Guard([], g.until, flying), log + [Entry(Welcome, now)], l, now)
  {
    var e := Entry(Welcome, now);
    FailsSinceWith(log, e);
    UntilStays(g, log, e, l, from);
    AllEarnedWith(log, e, l);
  }

  lemma InvalidTold(g: Guard, log: seq<Entry>, l: Limits, flying: set<nat>, from: real, now: real)
    requires Told(g, log, l, from) && from <= now
    ensures Told(Failing(g.(flying := flying), l, now), log + [Entry(Invalid, now)], l, now)
  {
    var e := Entry(Invalid, now);
    FailureTold(g, log, l, now);
    UntilStays(g, log, e, l, from);
    AllEarnedWith(log, e, l);
    if Streak(g.fails + [now], l.lock) >= l.maxFails {
      assert Earned(log + [e], |log|, l) && (log + [e])[|log|].now == now;
    }
  }

  lemma LeaveTold(g: Guard, log: seq<Entry>, l: Limits, n: nat, correct: bool, from: real, now: real)
    requires l.Valid() && Told(g, log, l, from) && from <= now
    ensures var (g', entries) := Tried(g, l, Leave(n, correct, now)); Told(g', log + entries, l, now)
  {
    if n !in g.flying {
      assert log + [] == log;
    } else if correct {
      WelcomeTold(g, log, l, g.flying - {n}, from, now);
    } else {
      InvalidTold(g, log, l, g.flying - {n}, from, now);
    }
  }

  lemma TriedTold(g: Guard, log: seq<Entry>, l: Limits, t: Try, from: real)
    requires l.Valid() && Told(g, log, l, from) && from <= t.now
    ensures Told(Tried(g, l, t).0, log + Tried(g, l, t).1, l, t.now)
  {
    match t
    case Enter(n, now) => EnterTold(g, log, l, n, from, now);
    case Leave(n, correct, now) => LeaveTold(g, log, l, n, correct, from, now);
  }

  lemma FailureTold(g: Guard, log: seq<Entry>, l: Limits, now: real)
    requires Ends(g.fails, FailsSince(log))
    ensures var all := log + [Entry(Invalid, now)];
            && Ends(g.fails + [now], FailsSince(all))
            && (Streak(g.fails + [now], l.lock) >= l.maxFails ==> Earned(all, |log|, l))
  {
    var e := Entry(Invalid, now);
    var all := log + [e];
    FailsSinceWith(log, e);
    assert Ends(g.fails + [now], FailsSince(log) + [now]);
    StreakOfEnd(g.fails + [now], FailsSince(all), l.lock);
    assert all[..|log| + 1] == all;
  }

  lemma {:induction false} TriesTold(g: Guard, log: seq<Entry>, l: Limits, tries: seq<Try>, from: real, all: seq<Entry>)
    requires l.Valid() && Told(g, log, l, from) && TriesInOrder(tries, from) && all == log + Alone(g, l, tries)
    ensures AllEarned(all, l)
    decreases |tries|
  {
    if tries == [] {
      assert all == log;
    } else {
      var g', entries := Tried(g, l, tries[0]).0, Tried(g, l, tries[0]).1;
      TriedTold(g, log, l, tries[0], from);
      assert all == (log + entries) + Alone(g', l, tries[1..]);
      TriesTold(g', log + entries, l, tries[1..], tries[0].now, all);
    }
  }

  /**
   In every run of all accounts, an account found locked has had at least `maxFails` failed checks
   behind its last success, the last of them less than the lock's length ago. So a success forgives
   what came before it, and a lock always ends.
   */
  lemma LockedIsEarned(a: Account, l: Limits, events: seq<Event>, from: real)
    requires l.Valid() && InOrder(events, from)
    ensures AllEarned(LogOf(a, IDLE, l, events), l)
  {
    StartsOpen(a, l, from);
    AccountsAreSeparate(a, IDLE, l, OPEN, events, from, 0);
    OwnTriesInOrder(a, events, from, from);
    assert [] + Alone(OPEN, l, TriesOf(a, events)) == Alone(OPEN, l, TriesOf(a, events));
    TriesTold(OPEN, [], l, TriesOf(a, events), from, LogOf(a, IDLE, l, events));
  }

  /** An attempt past the lock check ends as the password check does; one that is not is no attempt. */
  lemma VerdictOfCheck(a: Account, s: System, l: Limits, n: nat, correct: bool, now: real)
    ensures EntriesHere(a, s, l, Settle(a, n, correct, now))
         == if (a, n) in s.flying then [Entry(if correct then Welcome else Invalid, now)] else []
    ensures Step(s, l, Settle(a, n, correct, now)).0.flying == s.flying - {(a, n)}
  {
  }
}
