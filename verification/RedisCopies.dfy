/** How many copies of a task the Redis queue holds, and what the method-sized steps rest on. */
module RedisCopies {
  import opened Common
  import opened Tasks
  import opened RedisTaskQueue

  /** No two messages or delayed members belong to the same task. */
  ghost predicate UniqueIds(st: Store) {
    && (forall t, u :: t in st.stream && u in st.stream && t != u ==> st.stream[t].id != st.stream[u].id)
    && (forall d, e :: d in st.delayed && e in st.delayed && d != e ==> d.id != e.id)
    && (forall t, e :: t in st.stream && e in st.delayed ==> st.stream[t].id != e.id)
  }

  /** Each worker holds a message of its own that is still in the stream. */
  ghost predicate OwnMessages(s: State) {
    && (forall w :: w in s.hands ==> s.hands[w].token in s.store.stream)
    && (forall v, w :: v in s.hands && w in s.hands && v != w ==> s.hands[v].token != s.hands[w].token)
  }

  ghost predicate SingleCopy(s: State) {
    UniqueIds(s.store) && OwnMessages(s)
  }

  ghost predicate Absent(st: Store, id: string) {
    && (forall t :: t in st.stream ==> st.stream[t].id != id)
    && (forall e :: e in st.delayed ==> e.id != id)
  }

  ghost predicate FinishedForGood(s: State) {
    && s.succeeded !! s.buried
    && NoneOf(s.store, s.succeeded + s.buried)
    && s.succeeded + s.buried <= s.enqueued
  }

  /** No copy of any of these tasks. */
  ghost predicate NoneOf(st: Store, ids: set<string>) {
    && (forall t :: t in st.stream ==> st.stream[t].id !in ids)
    && (forall e :: e in st.delayed ==> e.id !in ids)
  }

  /** A reclaim that takes its message from a crashed worker, not from one still running it. */
  ghost predicate FromTheCrashed(s: State, step: Step) {
    step.Reclaim? ==> forall w :: w in s.hands ==> s.hands[w].token != step.token
  }

  ghost predicate NoSlowWorkerReclaimed(c: Config, s: State, steps: seq<Step>)
    requires IsRun(c, s, steps)
    decreases |steps|
  {
    steps != [] ==>
      FromTheCrashed(s, steps[0]) && NoSlowWorkerReclaimed(c, After(c, s, steps[0]), steps[1..])
  }

  lemma AddUnique(st: Store, env: Envelope, at: real)
    requires UniqueIds(st) && Absent(st, env.id)
    ensures UniqueIds(Posted(st, env)) && UniqueIds(Scheduled(st, env, at))
  {
  }

  lemma TakeUnique(st: Store, token: nat, env: Envelope)
    requires UniqueIds(st)
    ensures UniqueIds(Removed(st, token)) && UniqueIds(Withdrawn(st, env))
    ensures token in st.stream ==> Absent(Removed(st, token), st.stream[token].id)
    ensures env in st.delayed ==> Absent(Withdrawn(st, env), env.id)
  {
  }

  lemma RescheduleUnique(st: Store, token: nat, env: Envelope, delay: real, error: string, now: real)
    requires UniqueIds(st) && token in st.stream && st.stream[token].id == env.id
    ensures UniqueIds(Rescheduled(st, token, env, delay, error, now))
  {
    TakeUnique(st, token, env);
    AddUnique(Removed(st, token), Failed(env, error), now + NonNegative(delay));
  }

  lemma SettleUnique(s: State, held: Held, settlement: Settlement)
    requires UniqueIds(s.store) && held.token in s.store.stream && s.store.stream[held.token] == held.env
    ensures UniqueIds(RedisTaskQueue.Settled(s, held, settlement).store)
  {
    match settlement
    case Retry(delay, error) =>
      RescheduleUnique(s.store, held.token, held.env, delay as real, error, s.now);
    case _ => TakeUnique(s.store, held.token, held.env);
  }

  lemma NewIsAbsent(s: State, id: string)
    requires Known(s) && id !in s.enqueued
    ensures Absent(s.store, id)
  {
  }

  lemma PromoteUnique(st: Store, env: Envelope, at: real)
    requires UniqueIds(st) && env in st.delayed
    ensures UniqueIds(Posted(Withdrawn(st, env), env)) && UniqueIds(Scheduled(Withdrawn(st, env), env, at))
  {
    TakeUnique(st, 0, env);
    AddUnique(Withdrawn(st, env), env, at);
  }

  lemma StepUnique(c: Config, s: State, step: Step)
    requires Consistent(s) && Known(s) && SingleCopy(s) && Enabled(c, s, step)
    ensures UniqueIds(After(c, s, step).store)
  {
    var st := s.store;
    match step
    case Enqueue(env, delay) =>
      NewIsAbsent(s, env.id);
      AddUnique(st, env, s.now + delay);
    case Promote(env, _) => PromoteUnique(st, env, s.now + 5.0);
    case Finish(w, outcome) =>
      SettleUnique(s.(hands := s.hands - {w}), s.hands[w], Decide(c.policy, s.hands[w].env, outcome));
    case Reclaim(token) =>
      RescheduleUnique(st, token, st.stream[token], ReclaimDelay(c.policy.backoff), RECLAIM_ERROR, s.now);
    case _ =>
  }

  lemma StepOwn(c: Config, s: State, step: Step)
    requires Consistent(s) && OwnMessages(s) && Enabled(c, s, step) && FromTheCrashed(s, step)
    ensures OwnMessages(After(c, s, step))
  {
    match step
    case Reserve(w, token) => assert forall v :: v in s.hands ==> s.hands[v].token != token;
    case Finish(w, outcome) =>
      var settlement := Decide(c.policy, s.hands[w].env, outcome);
      assert After(c, s, step).store.stream == s.store.stream - {s.hands[w].token};
    case _ =>
  }

  lemma StepSingle(c: Config, s: State, step: Step)
    requires Consistent(s) && Known(s) && SingleCopy(s) && Enabled(c, s, step) && FromTheCrashed(s, step)
    ensures SingleCopy(After(c, s, step))
  {
    StepUnique(c, s, step);
    StepOwn(c, s, step);
  }

  lemma StepFinished(c: Config, s: State, step: Step)
    requires Consistent(s) && Known(s) && SingleCopy(s) && FinishedForGood(s)
    requires Enabled(c, s, step)
    ensures FinishedForGood(After(c, s, step))
  {
    if step.Finish? {
      SettleFinished(s, step.worker, Decide(c.policy, s.hands[step.worker].env, step.outcome));
    }
  }

  lemma SettleFinished(s: State, w: Worker, settlement: Settlement)
    requires Consistent(s) && Known(s) && SingleCopy(s) && FinishedForGood(s) && w in s.hands
    ensures FinishedForGood(RedisTaskQueue.Settled(s.(hands := s.hands - {w}), s.hands[w], settlement))
  {
    var held := s.hands[w];
    assert s.store.stream[held.token] == held.env;
    match settlement
    case Retry(delay, error) =>
      RescheduledNoneOf(s.store, held.token, held.env, delay as real, error, s.now, s.succeeded + s.buried);
    case _ => RemovedNoneOf(s.store, held.token, held.env.id, s.succeeded + s.buried);
  }

  lemma RescheduledNoneOf(
    st: Store, token: nat, env: Envelope, delay: real, error: string, now: real, ids: set<string>)
    requires NoneOf(st, ids) && env.id !in ids
    ensures NoneOf(Rescheduled(st, token, env, delay, error, now), ids)
  {
  }

  lemma RemovedNoneOf(st: Store, token: nat, id: string, ids: set<string>)
    requires UniqueIds(st) && NoneOf(st, ids) && token in st.stream && st.stream[token].id == id
    ensures NoneOf(Removed(st, token), ids + {id})
  {
    TakeUnique(st, token, st.stream[token]);
  }

  /**
   As long as only crashed workers lose their tasks, a task has exactly one copy until it is
   done with and none afterwards, and it never both succeeds and is buried.
   */
  lemma {:induction false} ExactlyOneCopy(c: Config, s: State, steps: seq<Step>)
    requires Consistent(s) && Known(s) && NothingLost(s) && SingleCopy(s) && FinishedForGood(s)
    requires IsRun(c, s, steps) && NoSlowWorkerReclaimed(c, s, steps)
    ensures var t := EndOf(c, s, steps); NothingLost(t) && SingleCopy(t) && FinishedForGood(t)
    decreases |steps|
  {
    if steps != [] {
      StepConsistent(c, s, steps[0]);
      StepKnown(c, s, steps[0]);
      StepLosesNothing(c, s, steps[0]);
      StepSingle(c, s, steps[0]);
      StepFinished(c, s, steps[0]);
      ExactlyOneCopy(c, After(c, s, steps[0]), steps[1..]);
    }
  }

  /** Reclaiming from a worker that is only slow leaves two copies once that worker fails. */
  lemma SlowWorkerDuplicates(c: Config, env: Envelope) returns (steps: seq<Step>)
    requires c.visibility >= 0.0 && env.name in c.policy.registry && env.attempts < Limit(c.policy, env)
    ensures IsRun(c, Start(0.0), steps)
    ensures var st := EndOf(c, Start(0.0), steps).store;
            exists d, e :: d in st.delayed && e in st.delayed && d != e && d.id == e.id == env.id
  {
    var s0 := Start(0.0);
    var s1 := After(c, s0, Enqueue(env, 0.0));
    var s2 := After(c, s1, Reserve(0, 0));
    var s3 := After(c, s2, Tick(c.visibility));
    var s4 := After(c, s3, Reclaim(0));
    var s5 := After(c, s4, Finish(0, Raised("timed out")));
    steps := Prepended(c, s4, Finish(0, Raised("timed out")), []);
    steps := Prepended(c, s3, Reclaim(0), steps);
    steps := Prepended(c, s2, Tick(c.visibility), steps);
    steps := Prepended(c, s1, Reserve(0, 0), steps);
    steps := Prepended(c, s0, Enqueue(env, 0.0), steps);
    var d, e := Failed(env, RECLAIM_ERROR), Failed(env, "timed out");
    assert d.lastError == Some(RECLAIM_ERROR) && e.lastError == Some("timed out");
    assert RECLAIM_ERROR[0] != "timed out"[0];
    assert d in s5.store.delayed && e in s5.store.delayed && d != e && d.id == e.id == env.id;
  }

  lemma Prepended(c: Config, s: State, step: Step, rest: seq<Step>) returns (steps: seq<Step>)
    requires Enabled(c, s, step) && IsRun(c, After(c, s, step), rest)
    ensures IsRun(c, s, steps) && EndOf(c, s, steps) == EndOf(c, After(c, s, step), rest)
  {
    steps := [step] + rest;
    assert steps[1..] == rest;
  }

  /** A copy of the task other than one message. */
  ghost predicate OtherCopy(st: Store, token: nat, id: string) {
    || (exists t :: t in st.stream && t != token && st.stream[t].id == id)
    || (exists e :: e in st.delayed && e.id == id)
  }

  ghost predicate CanSpare(s: State, held: Held) {
    || held.token !in s.store.stream || held.env.id in s.succeeded + s.buried
    || OtherCopy(s.store, held.token, held.env.id)
  }

  /**
   A crash right behind the removal of a worker's message loses nothing if and only if its task
   has succeeded or was buried already, or has another copy.
   */
  lemma RemovalGapIff(s: State, w: Worker)
    requires Consistent(s) && Known(s) && NothingLost(s) && w in s.hands
    ensures NothingLost(s.(store := Removed(s.store, s.hands[w].token), hands := s.hands - {w}))
       <==> CanSpare(s, s.hands[w])
  {
    var held := s.hands[w];
    var st := Removed(s.store, held.token);
    forall id ensures HasCopy(st, id) <==> OtherCopy(s.store, held.token, id) {
      if t :| t in s.store.stream && t != held.token && s.store.stream[t].id == id {
        assert t in st.stream && st.stream[t].id == id;
      }
    }
    forall id | HasCopy(s.store, id) && (held.token !in s.store.stream || id != held.env.id) ensures HasCopy(st, id) {
      RemoveKeeps(s.store, held.token, id);
    }
  }

  /** So a task with a single copy is lost by such a crash. */
  lemma CrashInsideRetryLoses(s: State, w: Worker)
    requires Consistent(s) && Known(s) && SingleCopy(s) && FinishedForGood(s) && w in s.hands
    ensures !NothingLost(s.(store := Removed(s.store, s.hands[w].token), hands := s.hands - {w}))
  {
    var held := s.hands[w];
    var st := Removed(s.store, held.token);
    assert s.store.stream[held.token] == held.env;
    assert !HasCopy(st, held.env.id) by {
      assert forall t :: t in st.stream ==> st.stream[t].id != held.env.id;
      assert forall e :: e in st.delayed ==> e.id != held.env.id;
    }
  }
}
