/**
 Times in the Redis queue: a task that is delayed, retried, reclaimed or put back is in no
 worker's reach before its due time, and in reach from then on; a claim waits for the visibility
 timeout.
 */
module RedisTiming {
  import opened Common
  import opened Tasks
  import opened RedisTaskQueue
  import opened RedisCopies

  /** The one copy of the task is `y`, delayed until `due`. */
  ghost predicate Waits(s: State, y: Envelope, due: real) {
    && y in s.store.delayed && s.store.delayed[y] == due && y.id in s.enqueued
    && (forall t :: t in s.store.stream ==> s.store.stream[t].id != y.id)
    && (forall e :: e in s.store.delayed && e.id == y.id ==> e == y)
    && (forall w :: w in s.hands ==> s.hands[w].env.id != y.id)
  }

  lemma StepWaits(c: Config, s: State, step: Step, y: Envelope, due: real)
    requires Waits(s, y, due) && Enabled(c, s, step) && s.now < due
    ensures Waits(After(c, s, step), y, due)
  {
    match step
    case Finish(w, outcome) =>
      FinishWaits(s.(hands := s.hands - {w}), s.hands[w], Decide(c.policy, s.hands[w].env, outcome), y, due);
    case Reclaim(token) => assert s.store.stream[token].id != y.id;
    case _ =>
  }

  lemma FinishWaits(s: State, held: Held, settlement: Settlement, y: Envelope, due: real)
    requires Waits(s, y, due) && held.env.id != y.id
    ensures Waits(Settled(s, held, settlement), y, due)
  {
  }

  lemma {:induction false} NowGrows(c: Config, s: State, steps: seq<Step>)
    requires IsRun(c, s, steps)
    ensures EndOf(c, s, steps).now >= s.now
    decreases |steps|
  {
    if steps != [] {
      NowGrows(c, After(c, s, steps[0]), steps[1..]);
    }
  }

  /** As long as the clock is below the due time, the task waits; the promoter may take it from then on. */
  lemma {:induction false} RunWaits(c: Config, s: State, steps: seq<Step>, y: Envelope, due: real)
    requires Waits(s, y, due) && IsRun(c, s, steps) && EndOf(c, s, steps).now < due
    ensures Waits(EndOf(c, s, steps), y, due)
    decreases |steps|
  {
    NowGrows(c, s, steps);
    if steps != [] {
      NowGrows(c, After(c, s, steps[0]), steps[1..]);
      StepWaits(c, s, steps[0], y, due);
      RunWaits(c, After(c, s, steps[0]), steps[1..], y, due);
    }
  }

  /** The task is out of every worker's reach until `due`, and then due at once. */
  ghost predicate TimedIn(c: Config, s: State, id: string, y: Envelope, due: real) {
    && y.id == id
    && (forall t :: t in s.store.stream ==> s.store.stream[t].id != id)
    && (forall w :: w in s.hands ==> s.hands[w].env.id != id)
    && y in s.store.delayed && s.store.delayed[y] == due
  }

  ghost predicate TimedUntil(c: Config, s: State, y: Envelope, due: real) {
    forall steps :: IsRun(c, s, steps) && EndOf(c, s, steps).now < due ==> TimedIn(c, EndOf(c, s, steps), y.id, y, due)
  }

  lemma WaitsIsTimed(c: Config, s: State, y: Envelope, due: real)
    requires Waits(s, y, due)
    ensures TimedUntil(c, s, y, due)
  {
    forall steps | IsRun(c, s, steps) && EndOf(c, s, steps).now < due
      ensures TimedIn(c, EndOf(c, s, steps), y.id, y, due)
    {
      RunWaits(c, s, steps, y, due);
    }
  }

  /** What the theorems start from: any run in which only crashed workers lost their tasks. */
  ghost predicate Reached(c: Config, s: State, before: seq<Step>) {
    && IsRun(c, Start(0.0), before) && s == EndOf(c, Start(0.0), before)
    && NoSlowWorkerReclaimed(c, Start(0.0), before)
  }

  lemma ReachedIsSound(c: Config, s: State, before: seq<Step>)
    requires Reached(c, s, before)
    ensures Consistent(s) && Known(s) && SingleCopy(s)
  {
    StartsWell(0.0);
    ExactlyOneCopy(c, Start(0.0), before);
    NoLoss(c, Start(0.0), before);
  }

  /** A new task waits its delay out; one without a delay is in the stream at once. */
  lemma DelayIsHonoured(c: Config, s: State, before: seq<Step>, env: Envelope, delay: real)
    requires Reached(c, s, before) && Enabled(c, s, Enqueue(env, delay))
    ensures var t := After(c, s, Enqueue(env, delay));
            && (delay > 0.0 ==> TimedUntil(c, t, env, s.now + delay))
            && (delay <= 0.0 ==> exists token :: token in t.store.stream && t.store.stream[token] == env)
  {
    ReachedIsSound(c, s, before);
    var t := After(c, s, Enqueue(env, delay));
    if delay > 0.0 {
      assert Waits(t, env, s.now + delay);
      WaitsIsTimed(c, t, env, s.now + delay);
    } else {
      assert t.store.stream[s.store.next] == env;
    }
  }

  /** A task whose run failed at attempt n waits backoff * 2^n out, from the failure on. */
  lemma BackoffIsHonoured(
    c: Config, s: State, before: seq<Step>, w: Worker, error: string, m: int, env: Envelope, y: Envelope, delay: int)
    requires Reached(c, s, before) && w in s.hands && s.hands[w].env == env
    requires env.name in c.policy.registry && LimitIs(c.policy, env, m) && env.attempts < m
    requires y == Envelope(env.id, env.name, env.body, env.attempts + 1, env.maxRetries,
                           if error == "" then None else Some(error))
    requires delay == (if c.policy.backoff > 0 then c.policy.backoff else 0) * Pow2(env.attempts)
    ensures TimedUntil(c, After(c, s, Finish(w, Raised(error))), y, s.now + delay as real)
  {
    ReachedIsSound(c, s, before);
    DecisionByCases(c.policy, env, Raised(error), m);
    RetryWaits(c, s, w, error, y, delay);
    WaitsIsTimed(c, After(c, s, Finish(w, Raised(error))), y, s.now + delay as real);
  }

  lemma RetryWaits(c: Config, s: State, w: Worker, error: string, y: Envelope, delay: int)
    requires Consistent(s) && Known(s) && SingleCopy(s) && w in s.hands && delay >= 0
    requires Decide(c.policy, s.hands[w].env, Raised(error)) == Retry(delay, error) && y == Failed(s.hands[w].env, error)
    ensures Waits(After(c, s, Finish(w, Raised(error))), y, s.now + delay as real)
  {
    RescheduledWaits(s, w, delay as real, error, s.now + delay as real);
  }

  lemma RescheduledWaits(s: State, w: Worker, delay: real, error: string, due: real)
    requires Consistent(s) && Known(s) && SingleCopy(s) && w in s.hands && delay >= 0.0 && due == s.now + delay
    ensures var held := s.hands[w];
            Waits(s.(hands := s.hands - {w}, store := Rescheduled(s.store, held.token, held.env, delay, error, s.now)),
                  Failed(held.env, error), due)
  {
    var held := s.hands[w];
    assert s.store.stream[held.token] == held.env;
    forall v | v in s.hands && v != w ensures s.hands[v].env.id != held.env.id {
      assert s.store.stream[s.hands[v].token] == s.hands[v].env;
    }
  }

  /** A reclaimed task waits the backoff out, but no more than a minute. */
  lemma ReclaimIsDelayed(c: Config, s: State, before: seq<Step>, token: nat)
    requires Reached(c, s, before) && Enabled(c, s, Reclaim(token))
    requires forall w :: w in s.hands ==> s.hands[w].token != token
    ensures var env := s.store.stream[token];
            var y := Envelope(env.id, env.name, env.body, env.attempts + 1, env.maxRetries,
                              Some("reclaimed from stale consumer"));
            var delay := if c.policy.backoff <= 0 then 0 else if c.policy.backoff >= 60 then 60 else c.policy.backoff;
            TimedUntil(c, After(c, s, Reclaim(token)), y, s.now + delay as real)
  {
    ReachedIsSound(c, s, before);
    var env := s.store.stream[token];
    forall w | w in s.hands ensures s.hands[w].env.id != env.id {
      assert s.store.stream[s.hands[w].token] == s.hands[w].env;
    }
    var y, t := Failed(env, RECLAIM_ERROR), After(c, s, Reclaim(token));
    var due := s.now + ReclaimDelay(c.policy.backoff);
    assert Waits(t, y, due);
    WaitsIsTimed(c, t, y, due);
  }

  /** A promotion whose XADD fails puts the task back for five seconds. */
  lemma PutBackIsDelayed(c: Config, s: State, before: seq<Step>, env: Envelope)
    requires Reached(c, s, before) && Enabled(c, s, Promote(env, false))
    ensures TimedUntil(c, After(c, s, Promote(env, false)), env, s.now + 5.0)
  {
    ReachedIsSound(c, s, before);
    var t := After(c, s, Promote(env, false));
    forall w | w in s.hands ensures s.hands[w].env.id != env.id {
      assert s.store.stream[s.hands[w].token] == s.hands[w].env;
    }
    assert Waits(t, env, s.now + 5.0);
    WaitsIsTimed(c, t, env, s.now + 5.0);
  }

  /** A promoted task is in the stream behind all others, as it was enqueued or rescheduled. */
  lemma PromotionDelivers(c: Config, s: State, env: Envelope)
    requires Consistent(s) && Enabled(c, s, Promote(env, true))
    ensures var st := After(c, s, Promote(env, true)).store;
            && env !in st.delayed
            && exists token :: token in st.stream && st.stream[token] == env && token >= st.delivered
                            && forall t :: t in s.store.stream ==> t < token && t in st.stream && st.stream[t] == s.store.stream[t]
  {
    var st := After(c, s, Promote(env, true)).store;
    assert st.stream[s.store.next] == env;
  }

  /** Exactly the members that are due can be promoted. */
  lemma DueIsPromotable(c: Config, s: State, env: Envelope, posted: bool)
    ensures Enabled(c, s, Promote(env, posted)) <==> env in s.store.delayed && s.store.delayed[env] <= s.now
  {
  }

  // ------------------------------------------------------------------ the visibility timeout

  /** The message is pending since `since`, and nobody but `w` holds it. */
  ghost predicate Out(s: State, w: Worker, token: nat, env: Envelope, since: real) {
    && token in s.store.stream && s.store.stream[token] == env && token < s.store.delivered
    && token in s.store.pending && s.store.pending[token] == since
    && forall v :: v in s.hands && v != w ==> s.hands[v].token != token
  }

  ghost predicate NotFinishedBy(w: Worker, steps: seq<Step>) {
    forall step :: step in steps ==> !(step.Finish? && step.worker == w)
  }

  lemma StepOut(c: Config, s: State, step: Step, w: Worker, token: nat, env: Envelope, since: real)
    requires Consistent(s) && Out(s, w, token, env, since) && Enabled(c, s, step)
    requires s.now < since + c.visibility && !(step.Finish? && step.worker == w)
    ensures Out(After(c, s, step), w, token, env, since)
  {
    match step
    case Finish(v, outcome) =>
      assert s.hands[v].token != token;
      SettledElsewhere(s.(hands := s.hands - {v}), s.hands[v], Decide(c.policy, s.hands[v].env, outcome), token);
    case _ =>
  }

  lemma SettledElsewhere(s: State, held: Held, settlement: Settlement, token: nat)
    requires held.token != token && token in s.store.stream && token in s.store.pending
    ensures var t := Settled(s, held, settlement);
            && token in t.store.stream && t.store.stream[token] == s.store.stream[token]
            && token in t.store.pending && t.store.pending[token] == s.store.pending[token]
            && t.store.delivered == s.store.delivered && t.hands == s.hands
  {
  }

  lemma {:induction false} RunOut(
    c: Config, s: State, steps: seq<Step>, w: Worker, token: nat, env: Envelope, since: real)
    requires Consistent(s) && Out(s, w, token, env, since) && IsRun(c, s, steps) && NotFinishedBy(w, steps)
    requires EndOf(c, s, steps).now < since + c.visibility
    ensures Out(EndOf(c, s, steps), w, token, env, since)
    decreases |steps|
  {
    NowGrows(c, s, steps);
    if steps != [] {
      assert steps[0] in steps;
      StepConsistent(c, s, steps[0]);
      StepOut(c, s, steps[0], w, token, env, since);
      RunOut(c, After(c, s, steps[0]), steps[1..], w, token, env, since);
    }
  }

  /**
   A message handed to a worker stays that worker's until the visibility timeout is over, and can
   be claimed from then on if it has not been settled.
   */
  lemma VisibilityIsHonoured(c: Config, s: State, before: seq<Step>, w: Worker, token: nat, steps: seq<Step>)
    requires Reached(c, s, before) && Enabled(c, s, Reserve(w, token))
    requires var t := After(c, s, Reserve(w, token)); IsRun(c, t, steps) && NotFinishedBy(w, steps)
    ensures var t := After(c, s, Reserve(w, token));
            EndOf(c, t, steps).now < s.now + c.visibility ==>
              Out(EndOf(c, t, steps), w, token, s.store.stream[token], s.now) && !Enabled(c, EndOf(c, t, steps), Reclaim(token))
  {
    ReachedIsSound(c, s, before);
    StepConsistent(c, s, Reserve(w, token));
    var t := After(c, s, Reserve(w, token));
    if EndOf(c, t, steps).now < s.now + c.visibility {
      RunOut(c, t, steps, w, token, s.store.stream[token], s.now);
    }
  }

  /** Exactly the messages pending for that long can be claimed. */
  lemma StaleIsClaimable(c: Config, s: State, token: nat)
    requires Consistent(s)
    ensures Enabled(c, s, Reclaim(token)) <==> token in s.store.pending && s.store.pending[token] + c.visibility <= s.now
  {
  }

  /** A crash takes the task from its worker and leaves the message pending, to be claimed in time. */
  lemma CrashLeavesItPending(c: Config, s: State, w: Worker)
    requires Consistent(s)
    ensures Enabled(c, s, Crash(w)) <==> w in s.hands
    ensures w in s.hands ==>
              var t := After(c, s, Crash(w));
              && w !in t.hands && (forall v :: v in s.hands && v != w ==> v in t.hands && t.hands[v] == s.hands[v])
              && t.store == s.store && t.now == s.now
              && (s.hands[w].token in s.store.stream ==> s.hands[w].token in t.store.pending)
  {
  }
}
