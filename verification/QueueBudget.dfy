/** The retry budget over whole runs of the in-process queue. */
module QueueBudget {
  import opened Common
  import opened Tasks
  import opened MemoryTaskQueue
  import opened QueueRuns

  /** The action ends a run of the task with an exception. */
  predicate FailsHere(s: System, a: Action, id: string) {
    a.Finish? && a.thread < |s.inFlight| && s.inFlight[a.thread].id == id && a.outcome.Raised?
  }

  predicate EndsHere(s: System, a: Action, id: string) {
    a.Finish? && a.thread < |s.inFlight| && s.inFlight[a.thread].id == id
  }

  /** The delay a failing run schedules. */
  function DelayHere(s: System, p: Policy, a: Action, id: string): int {
    if FailsHere(s, a, id) then
      var settlement := Decide(p, s.inFlight[a.thread], a.outcome);
      if settlement.Retry? then settlement.delay else 0
    else 0
  }

  /** A run so far, with the failing runs of one task and the delays they scheduled. */
  datatype Account = Account(s: System, fails: nat, delays: int)

  function Booked(acc: Account, b: Bounds, p: Policy, a: Action, id: string): Account {
    Account(Act(acc.s, b, p, a), if FailsHere(acc.s, a, id) then acc.fails + 1 else acc.fails,
            acc.delays + DelayHere(acc.s, p, a, id))
  }

  function Book(acc: Account, b: Bounds, p: Policy, actions: seq<Action>, id: string): Account
    decreases |actions|
  {
    if actions == [] then acc else Book(Booked(acc, b, p, actions[0], id), b, p, actions[1..], id)
  }

  predicate IsCopy(s: System, e: Envelope) {
    e in Line(s.q) || e in s.inFlight
  }

  /** After `fails` failing runs, the task is where its budget puts it. */
  ghost predicate Spending(s: System, p: Policy, first: Envelope, fails: nat)
    requires first.name in p.registry
  {
    && Conserved(s) && s.enqueued[first.id] == 1
    && (forall e :: IsCopy(s, e) && e.id == first.id ==> IsLater(first, e, fails) && fails < RunsLeft(p, first))
    && (s.buried[first.id] == 1 ==> fails == RunsLeft(p, first))
    && (s.succeeded[first.id] == 1 ==> fails < RunsLeft(p, first))
  }

  predicate IsLater(first: Envelope, e: Envelope, fails: nat) {
    && e.name == first.name && e.body == first.body && e.maxRetries == first.maxRetries
    && e.attempts == first.attempts + fails && (fails == 0 ==> e == first)
  }

  // ------------------------------------------------------------------ one copy

  lemma {:induction false} CountedId(envs: seq<Envelope>, e: Envelope)
    requires e in envs
    ensures Ids(envs)[e.id] > 0
  {
    var i :| 0 <= i < |envs| && envs[i] == e;
    var ids := seq(|envs|, k requires 0 <= k < |envs| => envs[k].id);
    assert ids[i] in ids;
  }

  lemma UncountedId(envs: seq<Envelope>, id: string)
    requires Ids(envs)[id] == 0
    ensures forall e :: e in envs ==> e.id != id
  {
    forall e | e in envs ensures e.id != id {
      CountedId(envs, e);
    }
  }

  lemma OnePlace(s: System, id: string)
    requires Conserved(s)
    ensures Ids(Line(s.q))[id] + Ids(s.inFlight)[id] + s.succeeded[id] + s.buried[id] == s.enqueued[id]
  {
  }

  /** An action that does not end a run of the task makes no new copy of it. */
  lemma OtherCopies(s: System, b: Bounds, p: Policy, a: Action, id: string, e: Envelope)
    requires !EndsHere(s, a, id) && (a.Enqueue? ==> a.env.id != id)
    requires IsCopy(Act(s, b, p, a), e) && e.id == id
    ensures IsCopy(s, e)
  {
    match a
    case Enqueue(env, delay, now) =>
      var n := EnqueuedInserts(s.q, b, env, delay, now);
      InsertMembers(Line(s.q), n, env);
    case Reserve(now) => ReservedTakesHead(s.q, b, now);
    case Finish(i, outcome, now) =>
      if i < |s.inFlight| {
        FinishedCopies(s, b, p, i, outcome, now, e);
      }
    case Inspect(now) => PromotedLine(s.q, now);
  }

  lemma FinishedCopies(s: System, b: Bounds, p: Policy, i: nat, outcome: Outcome, now: real, e: Envelope)
    requires i < |s.inFlight| && s.inFlight[i].id != e.id && IsCopy(Act(s, b, p, Finish(i, outcome, now)), e)
    ensures IsCopy(s, e)
  {
    var settlement := Decide(p, s.inFlight[i], outcome);
    var n := SettledInserts(s.q, b, s.inFlight[i], settlement, now);
    if settlement.Retry? {
      InsertMembers(Line(s.q), n, Failed(s.inFlight[i], settlement.error));
    }
  }

  lemma OtherCounts(s: System, b: Bounds, p: Policy, a: Action, id: string)
    requires !EndsHere(s, a, id) && (a.Enqueue? ==> a.env.id != id)
    ensures var t := Act(s, b, p, a);
            t.enqueued[id] == s.enqueued[id] && t.buried[id] == s.buried[id] && t.succeeded[id] == s.succeeded[id]
  {
  }

  lemma OtherSpends(s: System, b: Bounds, p: Policy, a: Action, first: Envelope, fails: nat)
    requires first.name in p.registry && Spending(s, p, first, fails)
    requires !EndsHere(s, a, first.id) && (a.Enqueue? ==> a.env.id != first.id)
    ensures Spending(Act(s, b, p, a), p, first, fails)
  {
    var t := Act(s, b, p, a);
    ActConserves(s, b, p, a);
    OtherCounts(s, b, p, a, first.id);
    forall e | IsCopy(t, e) && e.id == first.id ensures IsLater(first, e, fails) && fails < RunsLeft(p, first) {
      OtherCopies(s, b, p, a, first.id, e);
    }
  }

  /** While a thread runs the task, there is no other copy of it. */
  lemma OnlyInFlight(s: System, i: nat)
    requires Conserved(s) && i < |s.inFlight| && s.enqueued[s.inFlight[i].id] == 1
    ensures s.succeeded[s.inFlight[i].id] == 0 && s.buried[s.inFlight[i].id] == 0
    ensures forall e :: e in Line(s.q) || e in s.inFlight[..i] + s.inFlight[i + 1..] ==> e.id != s.inFlight[i].id
  {
    var id := s.inFlight[i].id;
    OnePlace(s, id);
    CountedId(s.inFlight, s.inFlight[i]);
    UncountedId(Line(s.q), id);
    IdsRemove(s.inFlight, i);
    UncountedId(s.inFlight[..i] + s.inFlight[i + 1..], id);
  }

  /** The copies after the task's own run: the one put back, if any. */
  lemma OwnCopies(s: System, b: Bounds, p: Policy, i: nat, outcome: Outcome, now: real, e: Envelope)
    requires Conserved(s) && i < |s.inFlight| && s.enqueued[s.inFlight[i].id] == 1
    requires IsCopy(Act(s, b, p, Finish(i, outcome, now)), e) && e.id == s.inFlight[i].id
    ensures var settlement := Decide(p, s.inFlight[i], outcome);
            settlement.Retry? && e == Failed(s.inFlight[i], settlement.error)
  {
    OnlyInFlight(s, i);
    var settlement := Decide(p, s.inFlight[i], outcome);
    var n := SettledInserts(s.q, b, s.inFlight[i], settlement, now);
    if settlement.Retry? {
      InsertMembers(Line(s.q), n, Failed(s.inFlight[i], settlement.error));
    }
  }

  lemma OwnSpends(s: System, b: Bounds, p: Policy, i: nat, outcome: Outcome, now: real, first: Envelope, fails: nat)
    requires first.name in p.registry && Spending(s, p, first, fails)
    requires i < |s.inFlight| && s.inFlight[i].id == first.id
    ensures Spending(Act(s, b, p, Finish(i, outcome, now)), p, first, if outcome.Raised? then fails + 1 else fails)
  {
    var a := Finish(i, outcome, now);
    var t, env := Act(s, b, p, a), s.inFlight[i];
    ActConserves(s, b, p, a);
    OnlyInFlight(s, i);
    assert IsCopy(s, env) && IsLater(first, env, fails);
    forall e | IsCopy(t, e) && e.id == first.id
      ensures outcome.Raised? && IsLater(first, e, fails + 1) && fails + 1 < RunsLeft(p, first)
    {
      OwnCopies(s, b, p, i, outcome, now, e);
    }
  }

  // ------------------------------------------------------------------ every run

  /** What `fails` failing runs have scheduled in delays, the burying one none. */
  function DelaysOf(p: Policy, first: Envelope, fails: nat): int
    requires first.name in p.registry
  {
    Max(0, p.backoff) * (Pow2(first.attempts + Min(fails, RunsLeft(p, first) - 1)) - Pow2(first.attempts))
  }

  ghost predicate Balanced(acc: Account, p: Policy, first: Envelope)
    requires first.name in p.registry
  {
    Spending(acc.s, p, first, acc.fails) && acc.delays == DelaysOf(p, first, acc.fails)
  }

  lemma NextDelay(p: Policy, first: Envelope, fails: nat)
    requires first.name in p.registry && fails < RunsLeft(p, first)
    ensures DelaysOf(p, first, fails + 1)
         == DelaysOf(p, first, fails)
            + (if fails < RunsLeft(p, first) - 1 then Max(0, p.backoff) * Pow2(first.attempts + fails) else 0)
  {
    if fails < RunsLeft(p, first) - 1 {
      DelaysDouble(Max(0, p.backoff), first.attempts + fails, Pow2(first.attempts + fails + 1));
    }
  }

  lemma OwnDelay(s: System, p: Policy, a: Action, first: Envelope, fails: nat)
    requires first.name in p.registry && Spending(s, p, first, fails) && FailsHere(s, a, first.id)
    ensures fails < RunsLeft(p, first)
    ensures DelayHere(s, p, a, first.id)
         == if fails < RunsLeft(p, first) - 1 then Max(0, p.backoff) * Pow2(first.attempts + fails) else 0
  {
    assert IsCopy(s, s.inFlight[a.thread]);
  }

  lemma ActSpends(s: System, b: Bounds, p: Policy, a: Action, first: Envelope, fails: nat)
    requires first.name in p.registry && Spending(s, p, first, fails) && (a.Enqueue? ==> a.env.id != first.id)
    ensures Spending(Act(s, b, p, a), p, first, if FailsHere(s, a, first.id) then fails + 1 else fails)
  {
    if EndsHere(s, a, first.id) {
      OwnSpends(s, b, p, a.thread, a.outcome, a.now, first, fails);
    } else {
      OtherSpends(s, b, p, a, first, fails);
    }
  }

  lemma StepSpends(acc: Account, b: Bounds, p: Policy, a: Action, first: Envelope)
    requires first.name in p.registry && Spending(acc.s, p, first, acc.fails) && (a.Enqueue? ==> a.env.id != first.id)
    ensures var next := Booked(acc, b, p, a, first.id); Spending(next.s, p, first, next.fails)
  {
    ActSpends(acc.s, b, p, a, first, acc.fails);
  }

  lemma StepDelays(acc: Account, p: Policy, a: Action, first: Envelope)
    requires first.name in p.registry && Balanced(acc, p, first)
    ensures acc.delays + DelayHere(acc.s, p, a, first.id)
         == DelaysOf(p, first, if FailsHere(acc.s, a, first.id) then acc.fails + 1 else acc.fails)
  {
    if FailsHere(acc.s, a, first.id) {
      OwnDelay(acc.s, p, a, first, acc.fails);
      NextDelay(p, first, acc.fails);
    }
  }

  lemma BookedDelays(acc: Account, b: Bounds, p: Policy, a: Action, first: Envelope)
    requires first.name in p.registry && Balanced(acc, p, first)
    ensures var next := Booked(acc, b, p, a, first.id); next.delays == DelaysOf(p, first, next.fails)
  {
    StepDelays(acc, p, a, first);
  }

  lemma {:induction false} StaysBalanced(acc: Account, b: Bounds, p: Policy, actions: seq<Action>, first: Envelope)
    requires first.name in p.registry && Balanced(acc, p, first)
    requires forall a :: a in actions && a.Enqueue? ==> a.env.id != first.id
    ensures Balanced(Book(acc, b, p, actions, first.id), p, first)
    decreases |actions|
  {
    if actions != [] {
      assert actions[0] in actions;
      BookedDelays(acc, b, p, actions[0], first);
      StepSpends(acc, b, p, actions[0], first);
      StaysBalanced(Booked(acc, b, p, actions[0], first.id), b, p, actions[1..], first);
    }
  }

  lemma {:induction false} BookRuns(acc: Account, b: Bounds, p: Policy, actions: seq<Action>, id: string)
    ensures Book(acc, b, p, actions, id).s == Run(acc.s, b, p, actions)
    decreases |actions|
  {
    if actions != [] {
      BookRuns(Booked(acc, b, p, actions[0], id), b, p, actions[1..], id);
    }
  }

  lemma {:induction false} FreshSpends(b: Bounds, p: Policy, before: seq<Action>, first: Envelope, delay: real, now: real)
    requires b.Valid() && first.name in p.registry && Run(START, b, p, before).enqueued[first.id] == 0
    ensures Spending(Act(Run(START, b, p, before), b, p, Enqueue(first, delay, now)), p, first, 0)
  {
    var s := Run(START, b, p, before);
    EveryRun(b, p, before);
    ActConserves(s, b, p, Enqueue(first, delay, now));
    OnePlace(s, first.id);
    UncountedId(Line(s.q), first.id);
    UncountedId(s.inFlight, first.id);
    var n := EnqueuedInserts(s.q, b, first, delay, now);
    InsertMembers(Line(s.q), n, first);
  }

  /**
   In every run, a task that is enqueued once, with limit m, fails at most once more than it may
   be retried, is buried exactly when that many of its runs have failed, and its delays double
   from the first. Each copy of it is what was enqueued, but for attempts and last error.
   */
  lemma {:induction false} BudgetOverRuns(
    b: Bounds, p: Policy, before: seq<Action>, first: Envelope, m: int, delay: real, now: real, start: System,
    after: seq<Action>, end: Account)
    requires b.Valid() && Run(START, b, p, before).enqueued[first.id] == 0
    requires first.name in p.registry && LimitIs(p, first, m)
    requires start == Act(Run(START, b, p, before), b, p, Enqueue(first, delay, now))
    requires forall a :: a in after && a.Enqueue? ==> a.env.id != first.id
    requires end == Book(Account(start, 0, 0), b, p, after, first.id)
    ensures end.s == Run(start, b, p, after)
    ensures var retries := if m > first.attempts then m - first.attempts else 0;
            && end.fails <= retries + 1
            && (end.s.buried[first.id] == 1 <==> end.fails == retries + 1)
            && end.delays == Max(0, p.backoff) * (Pow2(first.attempts + Min(end.fails, retries)) - Pow2(first.attempts))
    ensures forall e :: (e in Line(end.s.q) || e in end.s.inFlight) && e.id == first.id ==>
              && e.name == first.name && e.body == first.body && e.maxRetries == first.maxRetries
              && e.attempts == first.attempts + end.fails && (end.fails == 0 ==> e == first)
  {
    FreshSpends(b, p, before, first, delay, now);
    BalancedFrom(b, p, first, start, after);
    BookRuns(Account(start, 0, 0), b, p, after, first.id);
    AccountInWords(end, p, first, m);
  }

  lemma {:induction false} BalancedFrom(b: Bounds, p: Policy, first: Envelope, start: System, after: seq<Action>)
    requires first.name in p.registry && Spending(start, p, first, 0)
    requires forall a :: a in after && a.Enqueue? ==> a.env.id != first.id
    ensures Balanced(Book(Account(start, 0, 0), b, p, after, first.id), p, first)
  {
    assert DelaysOf(p, first, 0) == 0;
    StaysBalanced(Account(start, 0, 0), b, p, after, first);
  }

  lemma AccountInWords(end: Account, p: Policy, first: Envelope, m: int)
    requires first.name in p.registry && LimitIs(p, first, m) && Balanced(end, p, first)
    ensures var retries := if m > first.attempts then m - first.attempts else 0;
            && end.fails <= retries + 1
            && (end.s.buried[first.id] == 1 <==> end.fails == retries + 1)
            && end.delays == Max(0, p.backoff) * (Pow2(first.attempts + Min(end.fails, retries)) - Pow2(first.attempts))
    ensures forall e :: (e in Line(end.s.q) || e in end.s.inFlight) && e.id == first.id ==>
              IsLater(first, e, end.fails)
  {
    SomewhereOnce(end.s, p, first, end.fails);
    LimitInWords(p, first, m, end.fails);
    assert forall e :: IsCopy(end.s, e) && e.id == first.id ==> IsLater(first, e, end.fails);
  }

  lemma LimitInWords(p: Policy, first: Envelope, m: int, fails: nat)
    requires first.name in p.registry && LimitIs(p, first, m)
    ensures var retries := if m > first.attempts then m - first.attempts else 0;
            && RunsLeft(p, first) == retries + 1
            && DelaysOf(p, first, fails)
               == Max(0, p.backoff) * (Pow2(first.attempts + Min(fails, retries)) - Pow2(first.attempts))
  {
  }

  lemma SomewhereOnce(s: System, p: Policy, first: Envelope, fails: nat)
    requires first.name in p.registry && Spending(s, p, first, fails)
    ensures fails <= RunsLeft(p, first) && (s.buried[first.id] == 1 <==> fails == RunsLeft(p, first))
  {
    OnePlace(s, first.id);
    if Ids(Line(s.q))[first.id] > 0 {
      var e := SomeWithId(Line(s.q), first.id);
      assert IsCopy(s, e);
    } else if Ids(s.inFlight)[first.id] > 0 {
      var e := SomeWithId(s.inFlight, first.id);
      assert IsCopy(s, e);
    }
  }

  lemma {:induction false} SomeWithId(envs: seq<Envelope>, id: string) returns (e: Envelope)
    requires Ids(envs)[id] > 0
    ensures e in envs && e.id == id
  {
    var ids := seq(|envs|, k requires 0 <= k < |envs| => envs[k].id);
    assert id in multiset(ids) && id in ids;
    var i :| 0 <= i < |ids| && ids[i] == id;
    e := envs[i];
  }
}
