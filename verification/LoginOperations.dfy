/**
 The cache operations behind `LoginRaces`, for all accounts at once: over every interleaving the
 cache keeps each account's state, and so the bound holds of whole runs.
 */
module LoginOperations {
  import opened Common
  import opened MemoryCache
  import opened Streaks
  import opened LoginGuard
  import opened LoginRaces

  // ------------------------------------------------------------------ the cache, one operation at a time

  datatype Event = Act(account: Account, move: Move) | Sweeping(now: real)

  function TimeOf(e: Event): real {
    if e.Act? then e.move.now else e.now
  }

  /** The cache, and where each attempt under way is. */
  datatype Server = Server(cache: Cache<Key>, stages: map<(Account, nat), Stage>)

  const IDLE := Server(Cache(map[], map[]), map[])

  function StagesOf(a: Account, s: Server): map<nat, Stage> {
    map f | f in s.stages && f.0 == a :: f.1 := s.stages[f]
  }

  /** One operation on the cache, where it leaves its thread, and the verdict it gives, if any. */
  function Operated(c: Cache<Key>, l: Limits, a: Account, stages: map<nat, Stage>, m: Move)
    : (Cache<Key>, Option<Stage>, seq<Verdict>)
    requires Ready(stages, m)
  {
    match m
    case Look(_, now) =>
      var (c1, found) := Do(c, Op.Get(LockKey(a)), now);
      (match found
       case Found(Some(Instant(until))) => (c1, Some(Seen(until)), [])
       case _ => (c1, Some(Checked), []))
    case Judge(n, now) => if now < stages[n].until then (c, None, [Locked]) else (c, Some(Stale), [])
    case Forget(_, now) => (Do(c, Op.Delete(LockKey(a)), now).0, Some(Checked), [])
    case Check(_, correct, now) =>
      if correct then (Do(c, Op.Delete(FailKey(a)), now).0, None, [Welcome])
      else
        var (c1, count) := Do(c, Op.Incr(FailKey(a), Some(l.lock)), now);
        var c2 := Do(c1, Op.Incr(GlobalKey(a.user), Some(l.lock)), now).0;
        (c2, if count.Count? && count.n >= l.maxFails then Some(Over) else None, [Invalid])
    case Lock(_, now) => (Do(c, Op.Set(LockKey(a), Instant(now + l.lock), Some(l.lock)), now).0, Some(Owing), [])
    case Clear(_, now) => (Do(c, Op.Delete(FailKey(a)), now).0, None, [])
  }

  function Step(s: Server, l: Limits, e: Event): (Server, seq<Verdict>) {
    match e
    case Act(a, m) =>
      if !Ready(StagesOf(a, s), m) then (s, [])
      else
        var (c, to, verdicts) := Operated(s.cache, l, a, StagesOf(a, s), m);
        (Server(c, if to.Some? then s.stages[(a, m.n) := to.value] else s.stages - {(a, m.n)}), verdicts)
    case Sweeping(now) => (s.(cache := Swept(s.cache, now)), [])
  }

  /** A sweep drops the counters and locks that have expired, and lets no attempt go on. */
  lemma SweepInWords(s: Server, l: Limits, now: real, key: Key)
    ensures var (t, verdicts) := Step(s, l, Event.Sweeping(now));
            && verdicts == [] && t.stages == s.stages
            && (key in t.cache.values <==> key in s.cache.values && !(key in s.cache.expiry && now > s.cache.expiry[key]))
            && (key in t.cache.values ==> t.cache.values[key] == s.cache.values[key])
  {
  }

  function EntriesHere(a: Account, s: Server, l: Limits, e: Event): seq<Entry> {
    var verdicts := Step(s, l, e).1;
    if e.Act? && e.account == a && verdicts != [] then [Entry(verdicts[0], e.move.now)] else []
  }

  function LogOf(a: Account, s: Server, l: Limits, events: seq<Event>): seq<Entry>
    decreases |events|
  {
    if events == [] then []
    else EntriesHere(a, s, l, events[0]) + LogOf(a, Step(s, l, events[0]).0, l, events[1..])
  }

  /** Never more than `k` attempts of the account are under way. */
  ghost predicate AtMostFlying(a: Account, s: Server, l: Limits, events: seq<Event>, k: nat)
    decreases |events|
  {
    && |StagesOf(a, s)| <= k
    && (events != [] ==> AtMostFlying(a, Step(s, l, events[0]).0, l, events[1..], k))
  }

  ghost predicate InOrder(events: seq<Event>, from: real)
    decreases |events|
  {
    events != [] ==> from <= TimeOf(events[0]) && InOrder(events[1..], TimeOf(events[0]))
  }

  // ------------------------------------------------------------------ the cache keeps every account's state

  ghost predicate LockKept(c: Cache<Key>, a: Account, until: Option<real>, now: real) {
    var key := LockKey(a);
    && (key in c.expiry ==> key in c.values)
    && (key in c.values ==>
          until.Some? && c.values[key] == Instant(until.value) && key in c.expiry && c.expiry[key] == until.value)
    && (until.Some? && now <= until.value ==> key in c.values)
  }

  ghost predicate Kept(c: Cache<Key>, l: Limits, a: Account, fails: seq<real>, until: Option<real>, now: real) {
    Counts(c, FailKey(a), fails, l.lock, now) && LockKept(c, a, until, now)
  }

  lemma KeptLater(c: Cache<Key>, d: Cache<Key>, l: Limits, a: Account, fails: seq<real>, until: Option<real>,
                  from: real, now: real)
    requires Kept(c, l, a, fails, until, from) && from <= now
    requires SameAt(c, d, FailKey(a)) && SameAt(c, d, LockKey(a))
    ensures Kept(d, l, a, fails, until, now)
  {
  }

  lemma LookKept(c: Cache<Key>, l: Limits, a: Account, r: Race, n: nat, now: real)
    requires Kept(c, l, a, r.fails, r.until, now) && n !in r.stages
    ensures var (d, to, verdicts) := Operated(c, l, a, r.stages, Look(n, now));
            Kept(d, l, a, r.fails, r.until, now) && to == Onward(r, l, Look(n, now)) && verdicts == []
  {
    OtherKey(c, Op.Get(LockKey(a)), now, FailKey(a));
  }

  lemma ForgetKept(c: Cache<Key>, l: Limits, a: Account, r: Race, now: real)
    requires Kept(c, l, a, r.fails, r.until, now)
    ensures Kept(Do(c, Op.Delete(LockKey(a)), now).0, l, a, r.fails, None, now)
  {
    OtherKey(c, Op.Delete(LockKey(a)), now, FailKey(a));
  }

  lemma ClearKept(c: Cache<Key>, l: Limits, a: Account, r: Race, now: real)
    requires Kept(c, l, a, r.fails, r.until, now)
    ensures Kept(Do(c, Op.Delete(FailKey(a)), now).0, l, a, [], r.until, now)
  {
    OtherKey(c, Op.Delete(FailKey(a)), now, LockKey(a));
  }

  lemma LockSetKept(c: Cache<Key>, l: Limits, a: Account, r: Race, now: real)
    requires l.Valid() && Kept(c, l, a, r.fails, r.until, now)
    ensures var d := Do(c, Op.Set(LockKey(a), Instant(now + l.lock), Some(l.lock)), now).0;
            Kept(d, l, a, r.fails, Some(now + l.lock), now)
  {
    OtherKey(c, Op.Set(LockKey(a), Instant(now + l.lock), Some(l.lock)), now, FailKey(a));
  }

  lemma CheckKept(c: Cache<Key>, l: Limits, a: Account, r: Race, n: nat, now: real)
    requires l.Valid() && Kept(c, l, a, r.fails, r.until, now) && Ready(r.stages, Check(n, false, now))
    ensures var (d, to, verdicts) := Operated(c, l, a, r.stages, Check(n, false, now));
            && Kept(d, l, a, r.fails + [now], r.until, now)
            && to == Onward(r, l, Check(n, false, now)) && verdicts == [Invalid]
  {
    var (c1, count) := Do(c, Op.Incr(FailKey(a), Some(l.lock)), now);
    IncrementCounts(c, FailKey(a), r.fails, l.lock, now, now);
    OtherKey(c, Op.Incr(FailKey(a), Some(l.lock)), now, LockKey(a));
    OtherKey(c1, Op.Incr(GlobalKey(a.user), Some(l.lock)), now, FailKey(a));
    OtherKey(c1, Op.Incr(GlobalKey(a.user), Some(l.lock)), now, LockKey(a));
  }

  lemma OperatedKept(c: Cache<Key>, l: Limits, a: Account, r: Race, m: Move, now: real)
    requires l.Valid() && Kept(c, l, a, r.fails, r.until, now) && Ready(r.stages, m) && now == m.now
    ensures var (d, to, verdicts) := Operated(c, l, a, r.stages, m);
            var (t, entries) := Moved(r, l, m);
            && Kept(d, l, a, t.fails, t.until, now) && to == Onward(r, l, m)
            && entries == if verdicts == [] then [] else [Entry(verdicts[0], now)]
  {
    match m
    case Look(n, _) => LookKept(c, l, a, r, n, now);
    case Judge(_, _) =>
    case Forget(_, _) => ForgetKept(c, l, a, r, now);
    case Check(n, correct, _) =>
      if correct { ClearKept(c, l, a, r, now); } else { CheckKept(c, l, a, r, n, now); }
    case Lock(_, _) => LockSetKept(c, l, a, r, now);
    case Clear(_, _) => ClearKept(c, l, a, r, now);
  }

  // ------------------------------------------------------------------ operations that nothing comes between

  /** Reading, judging and deleting in a row are the one lock check of `LoginGuard`. */
  lemma UninterruptedCheck(c: Cache<Key>, l: Limits, a: Account, now: real)
    ensures var (c1, to, _) := Operated(c, l, a, map[], Look(0, now));
            to.Some? && IsLocked(c, a, now) ==
              if to.value.Checked? then (c1, false)
              else if Operated(c1, l, a, map[0 := to.value], Judge(0, now)).1.None? then (c1, true)
              else (Operated(c1, l, a, map[0 := Stale], Forget(0, now)).0, false)
  {
  }

  /** Counting, locking and forgetting in a row are its one settlement. */
  lemma UninterruptedSettlement(c: Cache<Key>, l: Limits, a: Account, correct: bool, now: real)
    ensures var (c1, to, verdicts) := Operated(c, l, a, map[0 := Checked], Check(0, correct, now));
            && verdicts == [Settled(c, l, a, correct, now).1]
            && Settled(c, l, a, correct, now).0 ==
                 if to.None? then c1
                 else
                   var c2 := Operated(c1, l, a, map[0 := Over], Lock(0, now)).0;
                   Operated(c2, l, a, map[0 := Owing], Clear(0, now)).0
  {
  }

  // ------------------------------------------------------------------ whole runs

  ghost predicate Holds(a: Account, s: Server, l: Limits, r: Race, now: real) {
    Kept(s.cache, l, a, r.fails, r.until, now) && r.stages == StagesOf(a, s)
  }

  lemma StageMeans(a: Account, s: Server, n: nat)
    ensures n in StagesOf(a, s) <==> (a, n) in s.stages
    ensures n in StagesOf(a, s) ==> StagesOf(a, s)[n] == s.stages[(a, n)]
  {
    if (a, n) in s.stages {
      assert (a, n).0 == a && (a, n).1 == n;
    }
  }

  lemma StagesPlaced(a: Account, s: Server, b: Account, n: nat, to: Option<Stage>, t: Server)
    requires t.stages == if to.Some? then s.stages[(b, n) := to.value] else s.stages - {(b, n)}
    ensures StagesOf(a, t) == if a == b then Placed(StagesOf(a, s), n, to) else StagesOf(a, s)
  {
    forall m ensures m in StagesOf(a, t) <==> m in (if a == b then Placed(StagesOf(a, s), n, to) else StagesOf(a, s)) {
      StageMeans(a, s, m);
      StageMeans(a, t, m);
    }
    forall m | m in StagesOf(a, t)
      ensures StagesOf(a, t)[m] == (if a == b then Placed(StagesOf(a, s), n, to) else StagesOf(a, s))[m]
    {
      StageMeans(a, s, m);
      StageMeans(a, t, m);
    }
  }

  lemma OwnAct(a: Account, s: Server, l: Limits, r: Race, m: Move, from: real)
    requires l.Valid() && Holds(a, s, l, r, from) && from <= m.now
    ensures Holds(a, Step(s, l, Act(a, m)).0, l, Moved(r, l, m).0, m.now)
    ensures EntriesHere(a, s, l, Act(a, m)) == Moved(r, l, m).1
  {
    KeptLater(s.cache, s.cache, l, a, r.fails, r.until, from, m.now);
    if Ready(r.stages, m) {
      OperatedKept(s.cache, l, a, r, m, m.now);
      StagesPlaced(a, s, a, m.n, Onward(r, l, m), Step(s, l, Act(a, m)).0);
    }
  }

  lemma OperatedElsewhere(c: Cache<Key>, l: Limits, b: Account, stages: map<nat, Stage>, m: Move, key: Key)
    requires Ready(stages, m) && key !in {FailKey(b), LockKey(b), GlobalKey(b.user)}
    ensures SameAt(c, Operated(c, l, b, stages, m).0, key)
  {
    match m
    case Look(_, now) => OtherKey(c, Op.Get(LockKey(b)), now, key);
    case Judge(_, _) =>
    case Forget(_, now) => OtherKey(c, Op.Delete(LockKey(b)), now, key);
    case Check(_, correct, now) =>
      if correct {
        OtherKey(c, Op.Delete(FailKey(b)), now, key);
      } else {
        var c1 := Do(c, Op.Incr(FailKey(b), Some(l.lock)), now).0;
        OtherKey(c, Op.Incr(FailKey(b), Some(l.lock)), now, key);
        OtherKey(c1, Op.Incr(GlobalKey(b.user), Some(l.lock)), now, key);
        SameTrans(c, c1, Do(c1, Op.Incr(GlobalKey(b.user), Some(l.lock)), now).0, key);
      }
    case Lock(_, now) => OtherKey(c, Op.Set(LockKey(b), Instant(now + l.lock), Some(l.lock)), now, key);
    case Clear(_, now) => OtherKey(c, Op.Delete(FailKey(b)), now, key);
  }

  lemma ForeignAct(a: Account, s: Server, l: Limits, r: Race, b: Account, m: Move, from: real)
    requires a != b && Holds(a, s, l, r, from) && from <= m.now
    ensures Holds(a, Step(s, l, Act(b, m)).0, l, r, m.now)
  {
    var t := Step(s, l, Act(b, m)).0;
    if Ready(StagesOf(b, s), m) {
      OperatedElsewhere(s.cache, l, b, StagesOf(b, s), m, FailKey(a));
      OperatedElsewhere(s.cache, l, b, StagesOf(b, s), m, LockKey(a));
      StagesPlaced(a, s, b, m.n, Operated(s.cache, l, b, StagesOf(b, s), m).1, t);
    }
    KeptLater(s.cache, t.cache, l, a, r.fails, r.until, from, m.now);
  }

  lemma SweepHolds(a: Account, s: Server, l: Limits, r: Race, from: real, now: real)
    requires Holds(a, s, l, r, from) && from <= now
    ensures Holds(a, Step(s, l, Event.Sweeping(now)).0, l, r, now)
  {
    OthersKeepCount(s.cache, FailKey(a), r.fails, l.lock, from, now, LockKey(a));
    assert StagesOf(a, s.(cache := Swept(s.cache, now))) == StagesOf(a, s);
  }

  function MovesHere(a: Account, e: Event): seq<Move> {
    if e.Act? && e.account == a then [e.move] else []
  }

  function MovesOf(a: Account, events: seq<Event>): seq<Move> {
    if events == [] then [] else MovesHere(a, events[0]) + MovesOf(a, events[1..])
  }

  function RaceAfter(a: Account, r: Race, l: Limits, e: Event): Race {
    if MovesHere(a, e) == [] then r else Moved(r, l, e.move).0
  }

  lemma StepHolds(a: Account, s: Server, l: Limits, r: Race, e: Event, from: real)
    requires l.Valid() && Holds(a, s, l, r, from) && from <= TimeOf(e)
    ensures Holds(a, Step(s, l, e).0, l, RaceAfter(a, r, l, e), TimeOf(e))
    ensures EntriesHere(a, s, l, e) == if MovesHere(a, e) == [] then [] else Moved(r, l, e.move).1
  {
    match e
    case Sweeping(now) => SweepHolds(a, s, l, r, from, now);
    case Act(b, m) =>
      if a == b { OwnAct(a, s, l, r, m, from); } else { ForeignAct(a, s, l, r, b, m, from); }
  }

  /** An account's verdicts depend on its own moves alone, operation by operation too. */
  lemma {:induction false} AccountsAreApart(
    a: Account, s: Server, l: Limits, r: Race, events: seq<Event>, from: real, k: nat)
    requires l.Valid() && Holds(a, s, l, r, from) && InOrder(events, from)
    ensures LogOf(a, s, l, events) == RaceLog(r, l, MovesOf(a, events))
    ensures AtMostFlying(a, s, l, events, k) <==> NeverMore(r, l, MovesOf(a, events), k)
    decreases |events|
  {
    if events != [] {
      var e, moves := events[0], MovesOf(a, events[1..]);
      StepHolds(a, s, l, r, e, from);
      AccountsAreApart(a, Step(s, l, e).0, l, RaceAfter(a, r, l, e), events[1..], TimeOf(e), k);
      if MovesHere(a, e) == [] {
        assert [] + moves == moves;
      } else {
        assert ([e.move] + moves)[1..] == moves;
      }
    }
  }

  lemma {:induction false} OwnMovesInOrder(a: Account, events: seq<Event>, from: real, earlier: real)
    requires InOrder(events, from) && earlier <= from
    ensures MovesInOrder(MovesOf(a, events), earlier)
    decreases |events|
  {
    if events != [] {
      var e, moves := events[0], MovesOf(a, events[1..]);
      if MovesHere(a, e) == [] {
        OwnMovesInOrder(a, events[1..], TimeOf(e), earlier);
        assert [] + moves == moves;
      } else {
        OwnMovesInOrder(a, events[1..], TimeOf(e), TimeOf(e));
        assert ([e.move] + moves)[1..] == moves;
      }
    }
  }

  /**
   Over every interleaving of single cache operations, with at most `k` attempts of the account
   under way at a time, an interval of the lock's length without a successful login holds at most
   `maxFails` * (1 + 2 + ... + k) failed password checks of it.
   */
  lemma AtMostTriangle(a: Account, l: Limits, events: seq<Event>, lo: real, from: real, k: nat)
    requires l.Valid() && InOrder(events, from)
    requires AtMostFlying(a, IDLE, l, events, k) && NoWelcomeIn(LogOf(a, IDLE, l, events), l, lo)
    ensures FailedIn(LogOf(a, IDLE, l, events), l, lo) <= l.maxFails * Triangle(k)
  {
    assert StagesOf(a, IDLE) == map[];
    AccountsAreApart(a, IDLE, l, CALM, events, from, k);
    OwnMovesInOrder(a, events, from, from);
    RaceBound(CALM, l, MovesOf(a, events), lo, from, k);
  }

  /** All the moves as one account's steps. */
  function Acts(a: Account, moves: seq<Move>): seq<Event> {
    if moves == [] then [] else [Act(a, moves[0])] + Acts(a, moves[1..])
  }

  lemma {:induction false} ActsAreMoves(a: Account, moves: seq<Move>, from: real)
    requires MovesInOrder(moves, from)
    ensures MovesOf(a, Acts(a, moves)) == moves && InOrder(Acts(a, moves), from)
    decreases |moves|
  {
    if moves != [] {
      ActsAreMoves(a, moves[1..], moves[0].now);
      assert Acts(a, moves)[1..] == Acts(a, moves[1..]);
      assert [moves[0]] + moves[1..] == moves;
    }
  }

  /**
   A run from the empty cache with a limit of one and two attempts under way at a time: a stale
   deletion lets three checks fail at one instant, where uninterrupted steps allow two.
   */
  lemma StaleDeletionIsReached(a: Account, l: Limits, moves: seq<Move>) returns (events: seq<Event>)
    requires l.Valid() && l.maxFails == 1 && StaleDeletion(l, moves)
    ensures InOrder(events, 0.0) && AtMostFlying(a, IDLE, l, events, 2)
    ensures NoWelcomeIn(LogOf(a, IDLE, l, events), l, l.lock + 1.0)
    ensures FailedIn(LogOf(a, IDLE, l, events), l, l.lock + 1.0) == 3
  {
    events := Acts(a, moves);
    StaleInOrder(l, moves);
    ActsAreMoves(a, moves, 0.0);
    StaleDeletionFails(l, moves);
    assert StagesOf(a, IDLE) == map[];
    AccountsAreApart(a, IDLE, l, CALM, events, 0.0, 2);
    ThreeFailed(RaceLog(CALM, l, moves), l);
  }

  lemma ThreeFailed(log: seq<Entry>, l: Limits)
    requires l.Valid()
    requires var failed := Entry(Invalid, l.lock + 1.0); log == [Entry(Invalid, 0.0)] + ([failed] + [failed, failed])
    ensures NoWelcomeIn(log, l, l.lock + 1.0) && FailedIn(log, l, l.lock + 1.0) == 3
  {
    var lo, failed := l.lock + 1.0, Entry(Invalid, l.lock + 1.0);
    FailedStep([Entry(Invalid, 0.0)], [failed] + [failed, failed], l, lo);
    FailedStep([failed], [failed, failed], l, lo);
    assert [failed, failed] == [failed] + [failed];
    FailedStep([failed], [failed], l, lo);
    assert [failed] == [failed] + [];
    FailedStep([failed], [], l, lo);
  }

  lemma StaleInOrder(l: Limits, moves: seq<Move>)
    requires l.Valid() && StaleDeletion(l, moves)
    ensures MovesInOrder(moves, 0.0)
  {
    Ordered(moves, 0, 0.0);
    assert moves[0..] == moves;
  }

  lemma {:induction false} Ordered(moves: seq<Move>, i: nat, from: real)
    requires i <= |moves| && (i < |moves| ==> from <= moves[i].now)
    requires forall j :: i <= j < |moves| - 1 ==> moves[j].now <= moves[j + 1].now
    ensures MovesInOrder(moves[i..], from)
    decreases |moves| - i
  {
    if i < |moves| {
      Ordered(moves, i + 1, moves[i].now);
      assert moves[i..][1..] == moves[i + 1..];
    }
  }
}
