/**
 The quota of a client, over all its paths: exactly when it lets by every request that its path
 let by, said in terms of the requests' times alone.
 */
module ClientQuota {
  import opened Common
  import opened MemoryCache
  import opened Streaks
  import opened RateLimit

  /** The clients of the requests that their path let by and that have yet to go on. */
  function Waiting(n: nat, events: seq<Event>): map<nat, string> {
    if events == [] then map[]
    else
      var before := Waiting(n, events[..|events| - 1]);
      match events[|events| - 1]
      case Arrive(id, ip, path, _) =>
        if Streak(Arrivals(events, ip, path), WINDOW) > n then before else before[id := ip]
      case Proceed(id, _) => before - {id}
      case Sweeping(_) => before
  }

  /** When the requests of a client went on from their path to the client's own quota. */
  function Goings(n: nat, events: seq<Event>, ip: string): seq<real> {
    if events == [] then []
    else
      var init, e := events[..|events| - 1], events[|events| - 1];
      var waiting := Waiting(n, init);
      Goings(n, init, ip) + if e.Proceed? && e.id in waiting && waiting[e.id] == ip then [e.now] else []
  }

  lemma {:induction false} ArrivalsSnoc(events: seq<Event>, e: Event, ip: string, path: string)
    ensures Arrivals(events + [e], ip, path)
         == Arrivals(events, ip, path) + if e.Arrive? && e.ip == ip && e.path == path then [e.now] else []
  {
    if events == [] {
      assert ([] + [e])[1..] == [];
    } else {
      assert (events + [e])[1..] == events[1..] + [e];
      ArrivalsSnoc(events[1..], e, ip, path);
    }
  }

  /** The run so far keeps exactly these books. */
  ghost predicate Kept(s: System, log: seq<Entry>, n: nat, before: seq<Event>) {
    s.passed == Waiting(n, before) && PathsKept(log, before) && ClientsKept(log, n, before)
  }

  ghost predicate PathsKept(log: seq<Entry>, before: seq<Event>) {
    forall ip, path :: TimesOn(log, PathKey(ip, path)) == Arrivals(before, ip, path)
  }

  ghost predicate ClientsKept(log: seq<Entry>, n: nat, before: seq<Event>) {
    forall ip :: TimesOn(log, IpKey(ip)) == Goings(n, before, ip)
  }

  lemma EntriesAppend(log: seq<Entry>, entries: seq<Entry>, key: Key)
    requires |entries| <= 1
    ensures TimesOn(log + entries, key)
         == TimesOn(log, key) + if entries != [] && entries[0].key == key then [entries[0].now] else []
  {
    if entries == [] {
      assert log + entries == log;
    } else {
      assert entries == [entries[0]];
      TimesAppend(log, entries[0], key);
    }
  }

  lemma StepKeepsPaths(s: System, log: seq<Entry>, n: nat, before: seq<Event>, e: Event)
    requires PathsKept(log, before) && (e.Arrive? ==> e.id !in s.passed)
    ensures PathsKept(log + Step(s, n, e).1, before + [e])
  {
    var entries := Step(s, n, e).1;
    forall ip, path ensures TimesOn(log + entries, PathKey(ip, path)) == Arrivals(before + [e], ip, path) {
      EntriesAppend(log, entries, PathKey(ip, path));
      ArrivalsSnoc(before, e, ip, path);
    }
  }

  lemma StepKeepsClients(s: System, log: seq<Entry>, n: nat, before: seq<Event>, e: Event)
    requires ClientsKept(log, n, before) && s.passed == Waiting(n, before)
    ensures ClientsKept(log + Step(s, n, e).1, n, before + [e])
  {
    var entries, events := Step(s, n, e).1, before + [e];
    assert events[..|events| - 1] == before;
    forall ip ensures TimesOn(log + entries, IpKey(ip)) == Goings(n, events, ip) {
      EntriesAppend(log, entries, IpKey(ip));
    }
  }

  lemma StepKeepsWaiting(s: System, log: seq<Entry>, n: nat, before: seq<Event>, e: Event, from: real)
    requires s.passed == Waiting(n, before) && Recorded(s, log, n, from) && from <= e.now
    requires PathsKept(log + Step(s, n, e).1, before + [e]) && (e.Arrive? ==> e.id !in s.passed)
    ensures Step(s, n, e).0.passed == Waiting(n, before + [e])
  {
    var events := before + [e];
    assert events[..|events| - 1] == before;
    if e.Arrive? {
      ArriveIsJudged(s, log, n, e, from);
    }
  }

  lemma ArriveIsJudged(s: System, log: seq<Entry>, n: nat, e: Event, from: real)
    requires Recorded(s, log, n, from) && from <= e.now && e.Arrive? && e.id !in s.passed
    ensures var entries := Step(s, n, e).1;
            |entries| == 1
            && (entries[0].over <==> Streak(TimesOn(log + entries, PathKey(e.ip, e.path)), WINDOW) > n)
  {
    var entry := Step(s, n, e).1[0];
    HitAgrees(s.cache, log, PathKey(e.ip, e.path), from, e.now, entry.over);
  }

  lemma StepKeeps(s: System, log: seq<Entry>, n: nat, before: seq<Event>, e: Event, from: real)
    requires Kept(s, log, n, before) && Recorded(s, log, n, from) && from <= e.now
    requires e.Arrive? ==> e.id !in s.passed
    ensures Kept(Step(s, n, e).0, log + Step(s, n, e).1, n, before + [e])
  {
    StepKeepsPaths(s, log, n, before, e);
    StepKeepsClients(s, log, n, before, e);
    StepKeepsWaiting(s, log, n, before, e, from);
  }

  ghost predicate Ready(s: System, log: seq<Entry>, n: nat, before: seq<Event>, events: seq<Event>, from: real) {
    Kept(s, log, n, before) && Recorded(s, log, n, from) && InOrder(events, from) && OwnIds(s.passed, events)
  }

  lemma StepReady(
    s: System, log: seq<Entry>, n: nat, before: seq<Event>, e: Event, rest: seq<Event>, from: real,
    t: System, log': seq<Entry>, before': seq<Event>)
    requires Kept(s, log, n, before) && Recorded(s, log, n, from) && from <= e.now
    requires (e.Arrive? ==> e.id !in s.passed) && InOrder(rest, e.now) && OwnIds(t.passed, rest)
    requires t == Step(s, n, e).0 && log' == log + Step(s, n, e).1 && before' == before + [e]
    ensures Ready(t, log', n, before', rest, e.now)
  {
    StepKeeps(s, log, n, before, e, from);
    StepRecorded(s, log, n, e, from);
  }

  lemma LogOnward(s: System, log: seq<Entry>, n: nat, events: seq<Event>)
    requires events != []
    ensures var (t, entries) := Step(s, n, events[0]);
            log + LogOf(s, n, events) == (log + entries) + LogOf(t, n, events[1..])
  {
  }

  lemma EventOnward(before: seq<Event>, events: seq<Event>)
    requires events != []
    ensures before + events == (before + [events[0]]) + events[1..]
  {
  }

  /** One step on, the books are those of one event more. */
  lemma StaysReady(s: System, log: seq<Entry>, n: nat, before: seq<Event>, events: seq<Event>, from: real)
    returns (t: System, log': seq<Entry>, before': seq<Event>)
    requires Ready(s, log, n, before, events, from) && events != []
    ensures Ready(t, log', n, before', events[1..], events[0].now)
    ensures log + LogOf(s, n, events) == log' + LogOf(t, n, events[1..]) && before + events == before' + events[1..]
  {
    t, log', before' := Step(s, n, events[0]).0, log + Step(s, n, events[0]).1, before + [events[0]];
    OwnIdsBehind(s, n, events);
    StepReady(s, log, n, before, events[0], events[1..], from, t, log', before');
    LogOnward(s, log, n, events);
    EventOnward(before, events);
  }

  lemma {:induction false} GoingsAreHits(
    s: System, log: seq<Entry>, n: nat, before: seq<Event>, events: seq<Event>, from: real,
    all: seq<Entry>, whole: seq<Event>)
    requires Ready(s, log, n, before, events, from)
    requires all == log + LogOf(s, n, events) && whole == before + events
    ensures ClientsKept(all, n, whole)
    decreases |events|
  {
    if events == [] {
      assert all == log && whole == before;
    } else {
      var t, log', before' := StaysReady(s, log, n, before, events, from);
      GoingsAreHits(t, log', n, before', events[1..], events[0].now, all, whole);
    }
  }

  lemma OwnIdsBehind(s: System, n: nat, events: seq<Event>)
    requires events != [] && OwnIds(s.passed, events)
    ensures OwnIds(Step(s, n, events[0]).0.passed, events[1..])
  {
    forall i | 0 <= i < |events| - 1 && events[1..][i].Arrive?
      ensures events[1..][i].id !in Step(s, n, events[0]).0.passed
    {
      assert events[1..][i] == events[i + 1];
    }
  }

  lemma GoingsFromIdle(n: nat, events: seq<Event>, ip: string, from: real)
    requires InOrder(events, from) && OwnIds(map[], events)
    ensures TimesOn(LogOf(IDLE, n, events), IpKey(ip)) == Goings(n, events, ip)
  {
    assert Recorded(IDLE, [], n, from) && Kept(IDLE, [], n, []);
    assert [] + LogOf(IDLE, n, events) == LogOf(IDLE, n, events) && [] + events == events;
    GoingsAreHits(IDLE, [], n, [], events, from, LogOf(IDLE, n, events), events);
  }

  /**
   The client's quota lets every request by that its path let by if and only if no more than `n`
   of those follow one another at gaps of at most sixty seconds.
   */
  lemma ClientQuotaIff(n: nat, events: seq<Event>, ip: string, from: real)
    requires InOrder(events, from) && OwnIds(map[], events)
    ensures NeverOver(LogOf(IDLE, n, events), IpKey(ip)) <==> !LongChain(Goings(n, events, ip), n)
  {
    VerdictsAreStreaks(n, events, from);
    LogQuota(LogOf(IDLE, n, events), n, IpKey(ip));
    GoingsFromIdle(n, events, ip, from);
  }
}
