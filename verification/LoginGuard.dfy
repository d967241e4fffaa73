/**
 Login protection over the in-process cache: failures counted per user and address, and a
 lock when they reach the limit. An attempt is two steps, the lock check and, after the password
 check, the record of its outcome; attempts of several threads interleave between them.
 */
module LoginGuard {
  import opened Common
  import opened MemoryCache
  import opened Streaks

  datatype Account = Account(user: string, ip: string)

  datatype Key = FailKey(account: Account) | LockKey(account: Account) | GlobalKey(user: string)

  /** How many failures lock an account, and for how long. */
  datatype Limits = Limits(maxFails: int, lock: real) {
    predicate Valid() {
      maxFails > 0 && lock > 0.0
    }
  }

  /** A refused attempt never reaches the password check. */
  datatype Verdict = Locked | Invalid | Welcome

  datatype Event =
    | Begin(account: Account, n: nat, now: real)
    | Settle(account: Account, n: nat, correct: bool, now: real)
    | Sweeping(now: real)

  function IsLocked(c: Cache<Key>, a: Account, now: real): (Cache<Key>, bool) {
    var (c1, found) := Do(c, Op.Get(LockKey(a)), now);
    match found
    case Found(Some(Instant(until))) =>
      if now < until then (c1, true) else (Do(c1, Op.Delete(LockKey(a)), now).0, false)
    case _ => (c1, false)
  }

  function FailRecorded(c: Cache<Key>, l: Limits, a: Account, now: real): Cache<Key> {
    var (c1, count) := Do(c, Op.Incr(FailKey(a), Some(l.lock)), now);
    var c2 := Do(c1, Op.Incr(GlobalKey(a.user), Some(l.lock)), now).0;
    if count.Count? && count.n >= l.maxFails then
      var c3 := Do(c2, Op.Set(LockKey(a), Instant(now + l.lock), Some(l.lock)), now).0;
      Do(c3, Op.Delete(FailKey(a)), now).0
    else c2
  }

  /** What the password check leads to; a success clears the count but not a lock. */
  function Settled(c: Cache<Key>, l: Limits, a: Account, correct: bool, now: real): (Cache<Key>, Verdict) {
    if correct then (Do(c, Op.Delete(FailKey(a)), now).0, Welcome) else (FailRecorded(c, l, a, now), Invalid)
  }

  class AuthService {
    const cache: SimpleMemoryCache<Key>
    const limits: Limits

    constructor (cache: SimpleMemoryCache<Key>, limits: Limits)
      ensures this.cache == cache && this.limits == limits
    {
      this.cache, this.limits := cache, limits;
    }

    method IsLoginLocked(a: Account, now: real) returns (locked: bool)
      modifies cache
      ensures (cache.State(), locked) == IsLocked(old(cache.State()), a, now)
    {
      var until := cache.Get(LockKey(a), now);
      match until
      case Some(Instant(t)) =>
        if now < t {
          return true;
        }
        cache.Delete(LockKey(a), now);
        return false;
      case _ => return false;
    }

    method RecordLoginFail(a: Account, now: real)
      modifies cache
      ensures cache.State() == FailRecorded(old(cache.State()), limits, a, now)
    {
      var count := cache.Incr(FailKey(a), Some(limits.lock), now);
      var total := cache.Incr(GlobalKey(a.user), Some(limits.lock), now);
      if count >= limits.maxFails {
        cache.Set(LockKey(a), Instant(now + limits.lock), Some(limits.lock), now);
        cache.Delete(FailKey(a), now);
      }
    }

    /** An attempt that nothing comes between: checked at `now`, recorded at `later`. */
    method Login(a: Account, correct: bool, now: real, later: real) returns (v: Verdict)
      modifies cache
      ensures var (c1, locked) := IsLocked(old(cache.State()), a, now);
              (cache.State(), v) == if locked then (c1, Locked) else Settled(c1, limits, a, correct, later)
    {
      var locked := IsLoginLocked(a, now);
      if locked {
        return Locked;
      }
      if !correct {
        RecordLoginFail(a, later);
        return Invalid;
      }
      cache.Delete(FailKey(a), later);
      return Welcome;
    }
  }

  // ------------------------------------------------------------------ one account on its own

  /** Failed checks since the last success or lock, the latest lock, and the attempts under way. */
  datatype Guard = Guard(fails: seq<real>, until: Option<real>, flying: set<nat>)

  const OPEN := Guard([], None, {})

  /** One account's steps. */
  datatype Try = Enter(n: nat, now: real) | Leave(n: nat, correct: bool, now: real)

  datatype Entry = Entry(verdict: Verdict, now: real)

  predicate IsShut(g: Guard, now: real) {
    g.until.Some? && now < g.until.value
  }

  function Failing(g: Guard, l: Limits, now: real): Guard {
    var fails := g.fails + [now];
    if Streak(fails, l.lock) >= l.maxFails then g.(fails := [], until := Some(now + l.lock)) else g.(fails := fails)
  }

  /** The account after one of its steps, and the verdict the step gives, if it gives one. */
  function Tried(g: Guard, l: Limits, t: Try): (Guard, seq<Entry>) {
    match t
    case Enter(n, now) =>
      if n in g.flying then (g, [])
      else if IsShut(g, now) then (g, [Entry(Locked, now)])
      else (g.(until := None, flying := g.flying + {n}), [])
    case Leave(n, correct, now) =>
      if n !in g.flying then (g, [])
      else
        var landed := g.(flying := g.flying - {n});
        if correct then (landed.(fails := []), [Entry(Welcome, now)])
        else (Failing(landed, l, now), [Entry(Invalid, now)])
  }

  // ------------------------------------------------------------------ the cache keeps every guard

  ghost predicate SameAt(c: Cache<Key>, d: Cache<Key>, key: Key) {
    && (key in c.values <==> key in d.values) && (key in c.values ==> c.values[key] == d.values[key])
    && (key in c.expiry <==> key in d.expiry) && (key in c.expiry ==> c.expiry[key] == d.expiry[key])
  }

  ghost predicate Locks(c: Cache<Key>, a: Account, until: Option<real>, now: real) {
    var key := LockKey(a);
    && (key in c.expiry ==> key in c.values)
    && (key in c.values ==>
          until.Some? && c.values[key] == Instant(until.value) && key in c.expiry && c.expiry[key] == until.value)
    && (until.Some? && now < until.value ==> key in c.values)
  }

  ghost predicate Keeps(c: Cache<Key>, l: Limits, a: Account, g: Guard, now: real) {
    Counts(c, FailKey(a), g.fails, l.lock, now) && Locks(c, a, g.until, now)
  }

  lemma OtherKey(c: Cache<Key>, op: Op<Key>, now: real, key: Key)
    requires !op.Sweep? && op.key != key
    ensures SameAt(c, Do(c, op, now).0, key)
  {
  }

  lemma KeepsElsewhere(c: Cache<Key>, d: Cache<Key>, l: Limits, a: Account, g: Guard, from: real, now: real)
    requires Keeps(c, l, a, g, from) && from <= now
    requires SameAt(c, d, FailKey(a)) && SameAt(c, d, LockKey(a))
    ensures Keeps(d, l, a, g, now)
  {
  }

  lemma LockedCorrectly(c: Cache<Key>, l: Limits, a: Account, g: Guard, from: real, now: real)
    requires Keeps(c, l, a, g, from) && from <= now
    ensures var (c', locked) := IsLocked(c, a, now);
            && (locked <==> IsShut(g, now))
            && Keeps(c', l, a, if locked then g else g.(until := None), now)
  {
    OtherKey(c, Op.Get(LockKey(a)), now, FailKey(a));
    var c1 := Do(c, Op.Get(LockKey(a)), now).0;
    OtherKey(c1, Op.Delete(LockKey(a)), now, FailKey(a));
  }

  lemma Later(c: Cache<Key>, l: Limits, a: Account, g: Guard, from: real, now: real)
    requires Keeps(c, l, a, g, from) && from <= now
    ensures Keeps(c, l, a, g, now)
  {
  }

  lemma FailCounted(c: Cache<Key>, l: Limits, a: Account, g: Guard, now: real)
    requires l.Valid() && Keeps(c, l, a, g, now)
    ensures Keeps(FailRecorded(c, l, a, now), l, a, Failing(g, l, now), now)
  {
    var (c1, count) := Do(c, Op.Incr(FailKey(a), Some(l.lock)), now);
    IncrementCounts(c, FailKey(a), g.fails, l.lock, now, now);
    OtherKey(c, Op.Incr(FailKey(a), Some(l.lock)), now, LockKey(a));
    var c2 := Do(c1, Op.Incr(GlobalKey(a.user), Some(l.lock)), now).0;
    OtherKey(c1, Op.Incr(GlobalKey(a.user), Some(l.lock)), now, FailKey(a));
    OtherKey(c1, Op.Incr(GlobalKey(a.user), Some(l.lock)), now, LockKey(a));
    assert Keeps(c2, l, a, g.(fails := g.fails + [now]), now);
    if count.n >= l.maxFails {
      LockSet(c2, l, a, g.(fails := g.fails + [now]), now);
    }
  }

  lemma LockSet(c: Cache<Key>, l: Limits, a: Account, g: Guard, now: real)
    requires l.Valid() && Keeps(c, l, a, g, now)
    ensures var d := Do(c, Op.Set(LockKey(a), Instant(now + l.lock), Some(l.lock)), now).0;
            Keeps(Do(d, Op.Delete(FailKey(a)), now).0, l, a, g.(fails := [], until := Some(now + l.lock)), now)
  {
    var d := Do(c, Op.Set(LockKey(a), Instant(now + l.lock), Some(l.lock)), now).0;
    OtherKey(d, Op.Delete(FailKey(a)), now, LockKey(a));
  }

  lemma SettleKept(c: Cache<Key>, l: Limits, a: Account, g: Guard, correct: bool, from: real, now: real)
    requires l.Valid() && Keeps(c, l, a, g, from) && from <= now
    ensures Keeps(Settled(c, l, a, correct, now).0, l, a, if correct then g.(fails := []) else Failing(g, l, now), now)
  {
    Later(c, l, a, g, from, now);
    if correct {
      OtherKey(c, Op.Delete(FailKey(a)), now, LockKey(a));
    } else {
      FailCounted(c, l, a, g, now);
    }
  }

  lemma SameTrans(c: Cache<Key>, d: Cache<Key>, e: Cache<Key>, key: Key)
    requires SameAt(c, d, key) && SameAt(d, e, key)
    ensures SameAt(c, e, key)
  {
  }

  lemma LockedElsewhere(c: Cache<Key>, a: Account, now: real, key: Key)
    requires key != LockKey(a)
    ensures SameAt(c, IsLocked(c, a, now).0, key)
  {
    var c1 := Do(c, Op.Get(LockKey(a)), now).0;
    OtherKey(c, Op.Get(LockKey(a)), now, key);
    OtherKey(c1, Op.Delete(LockKey(a)), now, key);
    SameTrans(c, c1, Do(c1, Op.Delete(LockKey(a)), now).0, key);
  }

  lemma FailElsewhere(c: Cache<Key>, l: Limits, a: Account, now: real, key: Key)
    requires key !in {FailKey(a), LockKey(a), GlobalKey(a.user)}
    ensures SameAt(c, FailRecorded(c, l, a, now), key)
  {
    var c1 := Do(c, Op.Incr(FailKey(a), Some(l.lock)), now).0;
    OtherKey(c, Op.Incr(FailKey(a), Some(l.lock)), now, key);
    var c2 := Do(c1, Op.Incr(GlobalKey(a.user), Some(l.lock)), now).0;
    OtherKey(c1, Op.Incr(GlobalKey(a.user), Some(l.lock)), now, key);
    SameTrans(c, c1, c2, key);
    var c3 := Do(c2, Op.Set(LockKey(a), Instant(now + l.lock), Some(l.lock)), now).0;
    OtherKey(c2, Op.Set(LockKey(a), Instant(now + l.lock), Some(l.lock)), now, key);
    SameTrans(c, c2, c3, key);
    OtherKey(c3, Op.Delete(FailKey(a)), now, key);
    SameTrans(c, c3, Do(c3, Op.Delete(FailKey(a)), now).0, key);
  }

  lemma SettleElsewhere(c: Cache<Key>, l: Limits, a: Account, correct: bool, now: real, key: Key)
    requires key !in {FailKey(a), LockKey(a), GlobalKey(a.user)}
    ensures SameAt(c, Settled(c, l, a, correct, now).0, key)
  {
    FailElsewhere(c, l, a, now, key);
    OtherKey(c, Op.Delete(FailKey(a)), now, key);
  }

  /** Steps of other accounts, same user or same address included, change nothing here. */
  lemma ForeignAttempt(c: Cache<Key>, l: Limits, a: Account, g: Guard, b: Account, correct: bool, from: real, now: real)
    requires a != b && Keeps(c, l, a, g, from) && from <= now
    ensures Keeps(IsLocked(c, b, now).0, l, a, g, now)
    ensures Keeps(Settled(c, l, b, correct, now).0, l, a, g, now)
  {
    LockedElsewhere(c, b, now, FailKey(a));
    LockedElsewhere(c, b, now, LockKey(a));
    KeepsElsewhere(c, IsLocked(c, b, now).0, l, a, g, from, now);
    SettleElsewhere(c, l, b, correct, now, FailKey(a));
    SettleElsewhere(c, l, b, correct, now, LockKey(a));
    KeepsElsewhere(c, Settled(c, l, b, correct, now).0, l, a, g, from, now);
  }

  lemma SweptKeeps(c: Cache<Key>, l: Limits, a: Account, g: Guard, from: real, now: real)
    requires Keeps(c, l, a, g, from) && from <= now
    ensures Keeps(Swept(c, now), l, a, g, now)
  {
    OthersKeepCount(c, FailKey(a), g.fails, l.lock, from, now, LockKey(a));
  }

  // ------------------------------------------------------------------ whole runs

  /** The cache, and the attempts between their two steps. */
  datatype System = System(cache: Cache<Key>, flying: set<(Account, nat)>)

  const IDLE := System(Cache(map[], map[]), {})

  ghost predicate InOrder(events: seq<Event>, from: real)
    decreases |events|
  {
    events != [] ==> from <= events[0].now && InOrder(events[1..], events[0].now)
  }

  /** A step, and the verdict it gives, if it gives one. */
  function Step(s: System, l: Limits, e: Event): (System, seq<Verdict>) {
    match e
    case Begin(a, n, now) =>
      if (a, n) in s.flying then (s, [])
      else
        var (c, locked) := IsLocked(s.cache, a, now);
        if locked then (s.(cache := c), [Locked]) else (System(c, s.flying + {(a, n)}), [])
    case Settle(a, n, correct, now) =>
      if (a, n) !in s.flying then (s, [])
      else
        var (c, verdict) := Settled(s.cache, l, a, correct, now);
        (System(c, s.flying - {(a, n)}), [verdict])
    case Sweeping(now) => (s.(cache := Swept(s.cache, now)), [])
  }

  /** A sweep drops the counters and locks that have expired, and gives no verdict. */
  lemma SweepInWords(s: System, l: Limits, now: real, key: Key)
    ensures var (t, verdicts) := Step(s, l, Event.Sweeping(now));
            && verdicts == [] && t.flying == s.flying
            && (key in t.cache.values <==> key in s.cache.values && !(key in s.cache.expiry && now > s.cache.expiry[key]))
            && (key in t.cache.values ==> t.cache.values[key] == s.cache.values[key])
  {
  }

  function EntriesHere(a: Account, s: System, l: Limits, e: Event): seq<Entry> {
    var verdicts := Step(s, l, e).1;
    if !e.Sweeping? && e.account == a && verdicts != [] then [Entry(verdicts[0], e.now)] else []
  }

  /** The verdicts one account gets in a run of all accounts, with their times. */
  function LogOf(a: Account, s: System, l: Limits, events: seq<Event>): seq<Entry>
    decreases |events|
  {
    if events == [] then []
    else EntriesHere(a, s, l, events[0]) + LogOf(a, Step(s, l, events[0]).0, l, events[1..])
  }

  function FlyingHere(a: Account, s: System): set<nat> {
    set f | f in s.flying && f.0 == a :: f.1
  }

  /** Never more than `k` attempts of the account are under way. */
  ghost predicate AtMostFlying(a: Account, s: System, l: Limits, events: seq<Event>, k: nat)
    decreases |events|
  {
    && |FlyingHere(a, s)| <= k
    && (events != [] ==> AtMostFlying(a, Step(s, l, events[0]).0, l, events[1..], k))
  }

  function TryHere(a: Account, e: Event): seq<Try> {
    if e.Sweeping? || e.account != a then []
    else if e.Begin? then [Enter(e.n, e.now)]
    else [Leave(e.n, e.correct, e.now)]
  }

  function TriesOf(a: Account, events: seq<Event>): seq<Try> {
    if events == [] then [] else TryHere(a, events[0]) + TriesOf(a, events[1..])
  }

  /** The same log, from the account's own steps alone. */
  function Alone(g: Guard, l: Limits, tries: seq<Try>): seq<Entry>
    decreases |tries|
  {
    if tries == [] then [] else Tried(g, l, tries[0]).1 + Alone(Tried(g, l, tries[0]).0, l, tries[1..])
  }

  ghost predicate NeverAbove(g: Guard, l: Limits, tries: seq<Try>, k: nat)
    decreases |tries|
  {
    && |g.flying| <= k
    && (tries != [] ==> NeverAbove(Tried(g, l, tries[0]).0, l, tries[1..], k))
  }

  function GuardAfter(a: Account, g: Guard, l: Limits, e: Event): Guard {
    if TryHere(a, e) == [] then g else Tried(g, l, TryHere(a, e)[0]).0
  }

  /** The system holds the account's guard. */
  ghost predicate Holds(a: Account, s: System, l: Limits, g: Guard, now: real) {
    Keeps(s.cache, l, a, g, now) && g.flying == FlyingHere(a, s)
  }

  lemma FlyingChanges(a: Account, s: System, b: Account, n: nat)
    ensures FlyingHere(a, s.(flying := s.flying + {(b, n)})) == FlyingHere(a, s) + if a == b then {n} else {}
    ensures FlyingHere(a, s.(flying := s.flying - {(b, n)})) == FlyingHere(a, s) - if a == b then {n} else {}
    ensures (a, n) in s.flying <==> n in FlyingHere(a, s)
  {
    var more, less := s.(flying := s.flying + {(b, n)}), s.(flying := s.flying - {(b, n)});
    forall m ensures m in FlyingHere(a, s) <==> (a, m) in s.flying {
      FlyingMeans(a, s, m);
    }
    forall m ensures m in FlyingHere(a, more) <==> (a, m) in more.flying {
      FlyingMeans(a, more, m);
    }
    forall m ensures m in FlyingHere(a, less) <==> (a, m) in less.flying {
      FlyingMeans(a, less, m);
    }
  }

  lemma FlyingMeans(a: Account, s: System, m: nat)
    ensures m in FlyingHere(a, s) <==> (a, m) in s.flying
  {
    if (a, m) in s.flying {
      assert (a, m).0 == a && (a, m).1 == m;
    }
  }

  lemma OwnBegin(a: Account, s: System, l: Limits, g: Guard, n: nat, from: real, now: real)
    requires l.Valid() && Holds(a, s, l, g, from) && from <= now
    ensures Holds(a, Step(s, l, Begin(a, n, now)).0, l, Tried(g, l, Enter(n, now)).0, now)
    ensures EntriesHere(a, s, l, Begin(a, n, now)) == Tried(g, l, Enter(n, now)).1
  {
    FlyingChanges(a, s, a, n);
    Later(s.cache, l, a, g, from, now);
    LockedCorrectly(s.cache, l, a, g, from, now);
  }

  lemma OwnSettle(a: Account, s: System, l: Limits, g: Guard, n: nat, correct: bool, from: real, now: real)
    requires l.Valid() && Holds(a, s, l, g, from) && from <= now
    ensures Holds(a, Step(s, l, Settle(a, n, correct, now)).0, l, Tried(g, l, Leave(n, correct, now)).0, now)
    ensures EntriesHere(a, s, l, Settle(a, n, correct, now)) == Tried(g, l, Leave(n, correct, now)).1
  {
    FlyingChanges(a, s, a, n);
    Later(s.cache, l, a, g, from, now);
    var landed := g.(flying := g.flying - {n});
    assert Keeps(s.cache, l, a, landed, from);
    SettleKept(s.cache, l, a, landed, correct, from, now);
  }

  lemma ForeignStep(a: Account, s: System, l: Limits, g: Guard, e: Event, from: real)
    requires Holds(a, s, l, g, from) && from <= e.now && TryHere(a, e) == []
    ensures Holds(a, Step(s, l, e).0, l, g, e.now) && EntriesHere(a, s, l, e) == []
  {
    Later(s.cache, l, a, g, from, e.now);
    match e
    case Begin(b, n, now) =>
      ForeignAttempt(s.cache, l, a, g, b, true, from, now);
      FlyingChanges(a, s, b, n);
    case Settle(b, n, correct, now) =>
      ForeignAttempt(s.cache, l, a, g, b, correct, from, now);
      FlyingChanges(a, s, b, n);
    case Sweeping(now) => SweptKeeps(s.cache, l, a, g, from, now);
  }

  lemma StepKeeps(a: Account, s: System, l: Limits, g: Guard, e: Event, from: real)
    requires l.Valid() && Holds(a, s, l, g, from) && from <= e.now
    ensures Holds(a, Step(s, l, e).0, l, GuardAfter(a, g, l, e), e.now)
    ensures EntriesHere(a, s, l, e) == if TryHere(a, e) == [] then [] else Tried(g, l, TryHere(a, e)[0]).1
  {
    if TryHere(a, e) == [] {
      ForeignStep(a, s, l, g, e, from);
    } else if e.Begin? {
      OwnBegin(a, s, l, g, e.n, from, e.now);
    } else {
      OwnSettle(a, s, l, g, e.n, e.correct, from, e.now);
    }
  }

  /**
   An account's verdicts depend on its own steps alone: not on other users or addresses, and
   not on when the sweeper runs.
   */
  lemma {:induction false} AccountsAreSeparate(
    a: Account, s: System, l: Limits, g: Guard, events: seq<Event>, from: real, k: nat)
    requires l.Valid() && Holds(a, s, l, g, from) && InOrder(events, from)
    ensures LogOf(a, s, l, events) == Alone(g, l, TriesOf(a, events))
    ensures AtMostFlying(a, s, l, events, k) <==> NeverAbove(g, l, TriesOf(a, events), k)
    decreases |events|
  {
    if events != [] {
      var e, tries := events[0], TriesOf(a, events[1..]);
      StepKeeps(a, s, l, g, e, from);
      AccountsAreSeparate(a, Step(s, l, e).0, l, GuardAfter(a, g, l, e), events[1..], e.now, k);
      if TryHere(a, e) == [] {
        assert [] + tries == tries;
      } else {
        assert (TryHere(a, e) + tries)[1..] == tries;
      }
    }
  }

  lemma StartsOpen(a: Account, l: Limits, from: real)
    ensures Holds(a, IDLE, l, OPEN, from)
  {
    assert FlyingHere(a, IDLE) == {};
  }

  // ------------------------------------------------------------------ the lock bound

  ghost predicate TriesInOrder(tries: seq<Try>, from: real)
    decreases |tries|
  {
    tries != [] ==> from <= tries[0].now && TriesInOrder(tries[1..], tries[0].now)
  }

  lemma {:induction false} OwnTriesInOrder(a: Account, events: seq<Event>, from: real, earlier: real)
    requires InOrder(events, from) && earlier <= from
    ensures TriesInOrder(TriesOf(a, events), earlier)
    decreases |events|
  {
    if events != [] {
      var e, tries := events[0], TriesOf(a, events[1..]);
      if TryHere(a, e) == [] {
        OwnTriesInOrder(a, events[1..], e.now, earlier);
        assert [] + tries == tries;
      } else {
        OwnTriesInOrder(a, events[1..], e.now, e.now);
        assert (TryHere(a, e) + tries)[1..] == tries;
      }
    }
  }

  predicate Inside(e: Entry, l: Limits, lo: real) {
    lo <= e.now < lo + l.lock
  }

  /** Failed checks at a time in [lo, lo + lock). */
  function FailedIn(log: seq<Entry>, l: Limits, lo: real): nat {
    if log == [] then 0
    else (if log[0].verdict == Invalid && Inside(log[0], l, lo) then 1 else 0) + FailedIn(log[1..], l, lo)
  }

  ghost predicate NoWelcomeIn(log: seq<Entry>, l: Limits, lo: real) {
    forall e :: e in log && Inside(e, l, lo) ==> e.verdict != Welcome
  }

  lemma FailedStep(entries: seq<Entry>, log: seq<Entry>, l: Limits, lo: real)
    requires |entries| <= 1
    ensures FailedIn(entries + log, l, lo)
         == (if entries != [] && entries[0].verdict == Invalid && Inside(entries[0], l, lo) then 1 else 0)
            + FailedIn(log, l, lo)
    ensures NoWelcomeIn(entries + log, l, lo) ==> NoWelcomeIn(log, l, lo) && NoWelcomeIn(entries, l, lo)
  {
    if entries == [] {
      assert entries + log == log;
    } else {
      assert (entries + log)[1..] == log;
    }
  }

  ghost predicate Sound(g: Guard, l: Limits, from: real) {
    Ascending(g.fails) && (forall t :: t in g.fails ==> t <= from) && Streak(g.fails, l.lock) < l.maxFails
  }

  lemma TriedSound(g: Guard, l: Limits, t: Try, from: real)
    requires l.Valid() && Sound(g, l, from) && from <= t.now
    ensures Sound(Tried(g, l, t).0, l, t.now)
  {
    FailsGrow(g.fails, t.now, from);
    if t.Leave? && t.n in g.flying && !t.correct {
      assert Sound(Failing(g.(flying := g.flying - {t.n}), l, t.now), l, t.now);
    }
  }

  lemma FailsGrow(fails: seq<real>, now: real, from: real)
    requires Ascending(fails) && (forall t :: t in fails ==> t <= from) && from <= now
    ensures Ascending(fails + [now]) && forall t :: t in fails + [now] ==> t <= now
  {
    forall i, j | 0 <= i < j < |fails + [now]| ensures (fails + [now])[i] <= (fails + [now])[j] {
      assert fails[i] in fails;
    }
  }

  lemma {:induction false} PastIt(g: Guard, l: Limits, tries: seq<Try>, lo: real, from: real)
    requires from >= lo + l.lock && TriesInOrder(tries, from)
    ensures FailedIn(Alone(g, l, tries), l, lo) == 0
    decreases |tries|
  {
    if tries != [] {
      var (g', entries) := Tried(g, l, tries[0]);
      PastIt(g', l, tries[1..], lo, tries[0].now);
      FailedStep(entries, Alone(g', l, tries[1..]), l, lo);
    }
  }

  /** Behind a lock that outlasts the interval only the attempts already under way can still fail. */
  lemma {:induction false} LockedOut(g: Guard, l: Limits, tries: seq<Try>, lo: real, from: real)
    requires l.Valid() && g.until.Some? && g.until.value >= lo + l.lock && from >= lo
    requires TriesInOrder(tries, from)
    ensures FailedIn(Alone(g, l, tries), l, lo) <= |g.flying|
    decreases |tries|
  {
    if tries != [] {
      var t := tries[0];
      var (g', entries) := Tried(g, l, t);
      FailedStep(entries, Alone(g', l, tries[1..]), l, lo);
      if t.now >= lo + l.lock {
        PastIt(g', l, tries[1..], lo, t.now);
      } else {
        LockedOut(g', l, tries[1..], lo, t.now);
      }
    }
  }

  lemma SinceBounded(g: Guard, l: Limits, now: real, lo: real, from: real)
    requires l.Valid() && Sound(g, l, from) && from <= now < lo + l.lock
    ensures Since(g.fails, lo) <= l.maxFails - 1
    ensures Since(g.fails + [now], lo) == if now < lo then 0 else 1 + Since(g.fails, lo)
    ensures from < lo ==> Since(g.fails, lo) == 0
  {
    if g.fails != [] {
      assert LastOf(g.fails) in g.fails;
    }
    StreakCoversWindow(g.fails, l.lock, lo);
    SinceAppend(g.fails, now, lo);
  }

  lemma {:induction false} LockBoundFrom(g: Guard, l: Limits, tries: seq<Try>, lo: real, from: real, k: nat)
    requires l.Valid() && Sound(g, l, from) && TriesInOrder(tries, from) && k > 0
    requires NeverAbove(g, l, tries, k) && NoWelcomeIn(Alone(g, l, tries), l, lo)
    ensures FailedIn(Alone(g, l, tries), l, lo) == 0
         || FailedIn(Alone(g, l, tries), l, lo) + Since(g.fails, lo) <= l.maxFails + k - 1
    decreases |tries|
  {
    if tries != [] {
      var t := tries[0];
      var (g', entries) := Tried(g, l, t);
      FailedStep(entries, Alone(g', l, tries[1..]), l, lo);
      if t.now >= lo + l.lock {
        PastIt(g', l, tries[1..], lo, t.now);
      } else {
        SinceBounded(g, l, t.now, lo, from);
        TriedSound(g, l, t, from);
        if entries != [] && entries[0].verdict == Invalid && t.now >= lo && g'.fails == [] {
          LockedOut(g', l, tries[1..], lo, t.now);
        } else {
          LockBoundFrom(g', l, tries[1..], lo, t.now, k);
        }
      }
    }
  }

  /**
   In every run of all accounts with at most `k` attempts of one account under way at a time,
   an interval of the lock's length without a successful login holds at most
   `maxFails` + k - 1 failed password checks of that account.
   */
  lemma AtMostMaxFails(a: Account, l: Limits, events: seq<Event>, lo: real, from: real, k: nat)
    requires l.Valid() && InOrder(events, from) && k > 0
    requires AtMostFlying(a, IDLE, l, events, k) && NoWelcomeIn(LogOf(a, IDLE, l, events), l, lo)
    ensures FailedIn(LogOf(a, IDLE, l, events), l, lo) <= l.maxFails + k - 1
  {
    StartsOpen(a, l, from);
    AccountsAreSeparate(a, IDLE, l, OPEN, events, from, k);
    OwnTriesInOrder(a, events, from, from);
    LockBoundFrom(OPEN, l, TriesOf(a, events), lo, from, k);
  }

  /** A locked account refuses to begin, and that neither prolongs nor shortens the lock. */
  lemma LockIsFixed(a: Account, s: System, l: Limits, g: Guard, n: nat, from: real, now: real)
    requires l.Valid() && Holds(a, s, l, g, from) && from <= now && IsShut(g, now) && n !in g.flying
    ensures EntriesHere(a, s, l, Begin(a, n, now)) == [Entry(Locked, now)]
    ensures var t := Step(s, l, Begin(a, n, now)).0;
            Holds(a, t, l, g, now) && t.flying == s.flying && Live(t.cache, now) == Live(s.cache, now)
  {
    OwnBegin(a, s, l, g, n, from, now);
    LockedCorrectly(s.cache, l, a, g, from, now);
    FlyingChanges(a, s, a, n);
    TouchFaithful(s.cache, LockKey(a), now);
  }

  // ------------------------------------------------------------------ the bound is attained

  /** `m` failures, all at the same instant. */
  function Zeros(m: nat): seq<real> {
    if m == 0 then [] else Zeros(m - 1) + [0.0]
  }

  function Failures(m: nat, more: seq<Entry>): seq<Entry> {
    if m == 0 then more else [Entry(Invalid, 0.0)] + Failures(m - 1, more)
  }

  lemma {:induction false} ZerosStreak(m: nat, ttl: real)
    requires ttl >= 0.0
    ensures |Zeros(m)| == m && (m > 0 ==> LastOf(Zeros(m)) == 0.0)
    ensures Streak(Zeros(m), ttl) == m
  {
    if m > 0 {
      ZerosStreak(m - 1, ttl);
      StreakAppend(Zeros(m - 1), 0.0, ttl);
    }
  }

  /** `j` attempts one after the other, and what follows. */
  function Warm(j: nat, more: seq<Try>): seq<Try>
    decreases j
  {
    if j == 0 then more else [Enter(0, 0.0)] + ([Leave(0, false, 0.0)] + Warm(j - 1, more))
  }

  function Enters(i: nat, k: nat, more: seq<Try>): seq<Try>
    requires i <= k
    decreases k - i
  {
    if i == k then more else [Enter(i, 0.0)] + Enters(i + 1, k, more)
  }

  function Leaves(i: nat, k: nat): seq<Try>
    requires i <= k
    decreases k - i
  {
    if i == k then [] else [Leave(i, false, 0.0)] + Leaves(i + 1, k)
  }

  function Between(i: nat, k: nat): (s: set<nat>)
    requires i <= k
    ensures |s| == k - i && forall x :: x in s <==> i <= x < k
    decreases k - i
  {
    if i == k then {} else Between(i + 1, k) + {i}
  }

  lemma {:induction false} Unrolled(g: Guard, l: Limits, t: Try, rest: seq<Try>, k: nat)
    ensures Alone(g, l, [t] + rest) == Tried(g, l, t).1 + Alone(Tried(g, l, t).0, l, rest)
    ensures Tried(g, l, t).1 == [] ==> Alone(g, l, [t] + rest) == Alone(Tried(g, l, t).0, l, rest)
    ensures NeverAbove(g, l, [t] + rest, k) <==> |g.flying| <= k && NeverAbove(Tried(g, l, t).0, l, rest, k)
  {
    assert ([t] + rest)[1..] == rest;
    assert [] + Alone(Tried(g, l, t).0, l, rest) == Alone(Tried(g, l, t).0, l, rest);
  }

  /** Attempts under way that all fail at once, whatever the count and the lock have become. */
  lemma {:induction false} LeavesFail(g: Guard, l: Limits, i: nat, k: nat, tries: seq<Try>, entries: seq<Entry>)
    requires i <= k && g.flying == Between(i, k) && tries == Leaves(i, k) && entries == Failures(k - i, [])
    ensures Alone(g, l, tries) == entries && NeverAbove(g, l, tries, k)
    decreases k - i
  {
    if i < k {
      var next := LeaveFlies(g, l, i, k);
      var more, rest := Leaves(i + 1, k), Failures(k - i - 1, []);
      LeavesFail(next, l, i + 1, k, more, rest);
      LeaveOnce(g, l, i, k, next, more, rest);
    }
  }

  lemma LeaveFlies(g: Guard, l: Limits, i: nat, k: nat) returns (next: Guard)
    requires i < k && g.flying == Between(i, k)
    ensures next == Tried(g, l, Leave(i, false, 0.0)).0 && next.flying == Between(i + 1, k)
  {
    next := Tried(g, l, Leave(i, false, 0.0)).0;
    assert Between(i, k) - {i} == Between(i + 1, k);
  }

  lemma {:induction false} LeaveOnce(
    g: Guard, l: Limits, i: nat, k: nat, next: Guard, more: seq<Try>, entries: seq<Entry>)
    requires i < k && g.flying == Between(i, k) && next == Tried(g, l, Leave(i, false, 0.0)).0
    requires Alone(next, l, more) == entries && NeverAbove(next, l, more, k)
    ensures Alone(g, l, [Leave(i, false, 0.0)] + more) == [Entry(Invalid, 0.0)] + entries
    ensures NeverAbove(g, l, [Leave(i, false, 0.0)] + more, k)
  {
    Unrolled(g, l, Leave(i, false, 0.0), more, k);
  }

  lemma {:induction false} EntersFly(g: Guard, l: Limits, i: nat, k: nat)
    requires i <= k && g.until == None && g.flying == Between(0, i)
    ensures Alone(g, l, Enters(i, k, Leaves(0, k))) == Failures(k, [])
    ensures NeverAbove(g, l, Enters(i, k, Leaves(0, k)), k)
    decreases k - i
  {
    if i == k {
      LeavesFail(g, l, 0, k, Leaves(0, k), Failures(k, []));
    } else {
      var next := EnterFlies(g, l, i, k);
      EntersFly(next, l, i + 1, k);
      EnterOnce(g, l, i, k, next, Enters(i + 1, k, Leaves(0, k)), Failures(k, []));
    }
  }

  lemma EnterFlies(g: Guard, l: Limits, i: nat, k: nat) returns (next: Guard)
    requires i < k && g.until == None && g.flying == Between(0, i)
    ensures next == Tried(g, l, Enter(i, 0.0)).0 && next.until == None && next.flying == Between(0, i + 1)
    ensures Tried(g, l, Enter(i, 0.0)).1 == []
  {
    next := Tried(g, l, Enter(i, 0.0)).0;
    BetweenNext(i);
  }

  lemma BetweenNext(i: nat)
    ensures Between(0, i) + {i} == Between(0, i + 1)
  {
  }

  lemma {:induction false} EnterOnce(
    g: Guard, l: Limits, i: nat, k: nat, next: Guard, more: seq<Try>, entries: seq<Entry>)
    requires i < k && g.flying == Between(0, i) && (next, []) == Tried(g, l, Enter(i, 0.0))
    requires Alone(next, l, more) == entries && NeverAbove(next, l, more, k)
    ensures Alone(g, l, [Enter(i, 0.0)] + more) == entries
    ensures NeverAbove(g, l, [Enter(i, 0.0)] + more, k)
  {
    Unrolled(g, l, Enter(i, 0.0), more, k);
  }

  /** An account with `m` failures counted. */
  function Spent(m: nat): Guard {
    Guard(Zeros(m), None, {})
  }

  lemma {:induction false} WarmFails(
    l: Limits, m: nat, j: nat, end: Guard, more: seq<Try>, tail: seq<Entry>, k: nat, tries: seq<Try>, entries: seq<Entry>)
    requires l.Valid() && m + j < l.maxFails && k > 0 && end == Spent(m + j)
    requires NeverAbove(end, l, more, k) && Alone(end, l, more) == tail
    requires tries == Warm(j, more) && entries == Failures(j, tail)
    ensures Alone(Spent(m), l, tries) == entries && NeverAbove(Spent(m), l, tries, k)
    decreases j
  {
    if j > 0 {
      var rest, behind := Warm(j - 1, more), Failures(j - 1, tail);
      WarmFails(l, m + 1, j - 1, end, more, tail, k, rest, behind);
      WarmOnce(l, m, rest, behind, k);
    }
  }

  /** One attempt that fails, with failures to spare. */
  lemma {:induction false} WarmOnce(l: Limits, m: nat, more: seq<Try>, entries: seq<Entry>, k: nat)
    requires l.Valid() && m + 1 < l.maxFails && k > 0
    requires Alone(Spent(m + 1), l, more) == entries && NeverAbove(Spent(m + 1), l, more, k)
    ensures var both := [Enter(0, 0.0)] + ([Leave(0, false, 0.0)] + more);
            Alone(Spent(m), l, both) == [Entry(Invalid, 0.0)] + entries && NeverAbove(Spent(m), l, both, k)
  {
    var g := Guard(Zeros(m), None, {});
    ZerosStreak(m + 1, l.lock);
    assert Zeros(m + 1) == Zeros(m) + [0.0];
    var up := Guard(Zeros(m), None, {0});
    var none: set<nat> := {};
    assert none + {0} == {0} && {0} - {0} == none;
    assert Tried(g, l, Enter(0, 0.0)) == (up, []);
    assert Tried(up, l, Leave(0, false, 0.0)) == (Guard(Zeros(m + 1), None, {}), [Entry(Invalid, 0.0)]);
    Unrolled(up, l, Leave(0, false, 0.0), more, k);
    Unrolled(g, l, Enter(0, 0.0), [Leave(0, false, 0.0)] + more, k);
  }

  function EventsOf(a: Account, tries: seq<Try>): seq<Event> {
    if tries == [] then []
    else
      [match tries[0] case Enter(n, now) => Begin(a, n, now) case Leave(n, correct, now) => Settle(a, n, correct, now)]
      + EventsOf(a, tries[1..])
  }

  lemma {:induction false} EventsAreTries(a: Account, tries: seq<Try>)
    requires AtZero(tries)
    ensures TriesOf(a, EventsOf(a, tries)) == tries && InOrder(EventsOf(a, tries), 0.0)
  {
    if tries != [] {
      assert tries[0] in tries;
      EventsAreTries(a, tries[1..]);
      assert EventsOf(a, tries)[1..] == EventsOf(a, tries[1..]);
    }
  }

  ghost predicate AtZero(tries: seq<Try>) {
    forall t :: t in tries ==> t.now == 0.0
  }

  lemma {:induction false} WarmAtZero(j: nat, more: seq<Try>)
    requires AtZero(more)
    ensures AtZero(Warm(j, more))
  {
    if j > 0 {
      WarmAtZero(j - 1, more);
    }
  }

  lemma {:induction false} EntersAtZero(i: nat, k: nat, more: seq<Try>)
    requires i <= k && AtZero(more)
    ensures AtZero(Enters(i, k, more))
    decreases k - i
  {
    if i < k {
      EntersAtZero(i + 1, k, more);
    }
  }

  lemma {:induction false} LeavesAtZero(i: nat, k: nat)
    requires i <= k
    ensures AtZero(Leaves(i, k))
    decreases k - i
  {
    if i < k {
      LeavesAtZero(i + 1, k);
    }
  }

  lemma {:induction false} FailuresCount(m: nat, l: Limits)
    requires l.Valid()
    ensures FailedIn(Failures(m, []), l, 0.0) == m && NoWelcomeIn(Failures(m, []), l, 0.0)
  {
    if m > 0 {
      FailuresCount(m - 1, l);
      FailedStep([Entry(Invalid, 0.0)], Failures(m - 1, []), l, 0.0);
    }
  }

  lemma {:induction false} FailuresAdd(i: nat, j: nat)
    ensures Failures(i, Failures(j, [])) == Failures(i + j, [])
  {
    if i > 0 {
      FailuresAdd(i - 1, j);
    }
  }

  /** With `k` attempts under way at once the bound is met exactly, whatever the limits. */
  lemma {:induction false} BoundIsAttained(a: Account, l: Limits, k: nat) returns (events: seq<Event>)
    requires l.Valid() && k > 0
    ensures InOrder(events, 0.0) && AtMostFlying(a, IDLE, l, events, k)
    ensures NoWelcomeIn(LogOf(a, IDLE, l, events), l, 0.0)
    ensures FailedIn(LogOf(a, IDLE, l, events), l, 0.0) == l.maxFails + k - 1
  {
    var tries := AllFail(l, k);
    events := LogIsAlone(a, l, tries, k);
    FailuresLog(LogOf(a, IDLE, l, events), l.maxFails + k - 1, l);
  }

  lemma {:induction false} FailuresLog(log: seq<Entry>, m: nat, l: Limits)
    requires l.Valid() && log == Failures(m, [])
    ensures FailedIn(log, l, 0.0) == m && NoWelcomeIn(log, l, 0.0)
  {
    FailuresCount(m, l);
  }

  lemma {:induction false} LogIsAlone(a: Account, l: Limits, tries: seq<Try>, k: nat) returns (events: seq<Event>)
    requires l.Valid() && AtZero(tries) && NeverAbove(OPEN, l, tries, k)
    ensures InOrder(events, 0.0) && AtMostFlying(a, IDLE, l, events, k)
    ensures LogOf(a, IDLE, l, events) == Alone(OPEN, l, tries)
  {
    events := EventsOf(a, tries);
    EventsAreTries(a, tries);
    StartsOpen(a, l, 0.0);
    AccountsAreSeparate(a, IDLE, l, OPEN, events, 0.0, k);
  }

  lemma {:induction false} AllFail(l: Limits, k: nat) returns (tries: seq<Try>)
    requires l.Valid() && k > 0
    ensures Alone(OPEN, l, tries) == Failures(l.maxFails + k - 1, []) && NeverAbove(OPEN, l, tries, k)
    ensures AtZero(tries)
  {
    var j := l.maxFails - 1;
    var atOnce := Enters(0, k, Leaves(0, k));
    tries := Warm(j, atOnce);
    LeavesAtZero(0, k);
    EntersAtZero(0, k, Leaves(0, k));
    WarmAtZero(j, atOnce);
    EntersFly(Spent(j), l, 0, k);
    assert Spent(0) == OPEN;
    WarmFails(l, 0, j, Spent(j), atOnce, Failures(k, []), k, tries, Failures(j, Failures(k, [])));
    FailuresAdd(j, k);
  }

  lemma {:induction false} TriesHead(a: Account, e: Event, events: seq<Event>)
    requires e.now == 0.0 && InOrder(events, 0.0)
    ensures InOrder([e] + events, 0.0) && TriesOf(a, [e] + events) == TryHere(a, e) + TriesOf(a, events)
  {
    assert ([e] + events)[1..] == events;
  }

  ghost predicate Overlap(a: Account, events: seq<Event>) {
    && |events| == 4
    && events[0] == Begin(a, 0, 0.0) && events[1] == Begin(a, 1, 0.0)
    && events[2] == Settle(a, 0, false, 0.0) && events[3] == Settle(a, 1, false, 0.0)
  }

  lemma {:induction false} OverlapTries(a: Account, events: seq<Event>)
    requires Overlap(a, events)
    ensures InOrder(events, 0.0)
    ensures TriesOf(a, events) == [Enter(0, 0.0), Enter(1, 0.0), Leave(0, false, 0.0), Leave(1, false, 0.0)]
  {
    TriesHead(a, events[3], events[4..]);
    assert [events[3]] + events[4..] == events[3..];
    TriesHead(a, events[2], events[3..]);
    assert [events[2]] + events[3..] == events[2..];
    TriesHead(a, events[1], events[2..]);
    assert [events[1]] + events[2..] == events[1..];
    TriesHead(a, events[0], events[1..]);
    assert [events[0]] + events[1..] == events;
  }

  /** Two overlapping logins with a limit of one: both checks fail although one failure locks. */
  lemma {:induction false} OverlappingLogins(a: Account, l: Limits, events: seq<Event>)
    requires l.Valid() && l.maxFails == 1 && Overlap(a, events)
    ensures LogOf(a, IDLE, l, events) == [Entry(Invalid, 0.0), Entry(Invalid, 0.0)]
  {
    OverlapTries(a, events);
    StartsOpen(a, l, 0.0);
    AccountsAreSeparate(a, IDLE, l, OPEN, events, 0.0, 2);
    TwoAtOnce(l);
  }

  lemma {:induction false} TwoAtOnce(l: Limits)
    ensures Alone(OPEN, l, [Enter(0, 0.0), Enter(1, 0.0), Leave(0, false, 0.0), Leave(1, false, 0.0)])
         == [Entry(Invalid, 0.0), Entry(Invalid, 0.0)]
  {
    assert Leaves(1, 2) == [Leave(1, false, 0.0)];
    assert Leaves(0, 2) == [Leave(0, false, 0.0), Leave(1, false, 0.0)];
    assert Enters(1, 2, Leaves(0, 2)) == [Enter(1, 0.0), Leave(0, false, 0.0), Leave(1, false, 0.0)];
    assert Enters(0, 2, Leaves(0, 2)) == [Enter(0, 0.0), Enter(1, 0.0), Leave(0, false, 0.0), Leave(1, false, 0.0)];
    EntersFly(OPEN, l, 0, 2);
    assert Failures(1, []) == [Entry(Invalid, 0.0)];
  }

  ghost predicate HoldsLimit(a: Account, l: Limits, events: seq<Event>, lo: real) {
    NoWelcomeIn(LogOf(a, IDLE, l, events), l, lo) ==> FailedIn(LogOf(a, IDLE, l, events), l, lo) <= l.maxFails
  }

  ghost predicate AlwaysHoldsLimit(a: Account, l: Limits, k: nat) {
    forall events, lo, from ::
      InOrder(events, from) && AtMostFlying(a, IDLE, l, events, k) ==> HoldsLimit(a, l, events, lo)
  }

  lemma {:induction false} FewerFlying(a: Account, s: System, l: Limits, events: seq<Event>, k: nat, more: nat)
    requires AtMostFlying(a, s, l, events, k) && k <= more
    ensures AtMostFlying(a, s, l, events, more)
    decreases |events|
  {
    if events != [] {
      FewerFlying(a, Step(s, l, events[0]).0, l, events[1..], k, more);
    }
  }

  /**
   The limit holds over all schedules if and only if attempts on the account do not overlap:
   two at once are enough for one failed check too many.
   */
  lemma MaxFailsIff(a: Account, l: Limits, k: nat)
    requires l.Valid()
    ensures AlwaysHoldsLimit(a, l, k) <==> k <= 1
  {
    if k <= 1 {
      forall events, lo, from | InOrder(events, from) && AtMostFlying(a, IDLE, l, events, k)
        ensures HoldsLimit(a, l, events, lo)
      {
        FewerFlying(a, IDLE, l, events, k, 1);
        if NoWelcomeIn(LogOf(a, IDLE, l, events), l, lo) {
          AtMostMaxFails(a, l, events, lo, from, 1);
        }
      }
    } else {
      var events := BoundIsAttained(a, l, k);
      assert !HoldsLimit(a, l, events, 0.0);
    }
  }
}
