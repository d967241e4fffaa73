/** What the status table and the dead letters say about a task, over runs of the in-process queue. */
module TaskStatus {
  import opened Common
  import opened Tasks
  import opened MemoryTaskQueue
  import opened QueueRuns

  /** What the settlement of a run writes, by how the run ended; `m` is the task's limit. */
  predicate Final(p: Policy, env: Envelope, m: int, outcome: Outcome, r: Record) {
    if env.name !in p.registry then
      r == Record(env.id, env.name, Dead, env.attempts, Some("task not registered: " + env.name))
    else if outcome == Returned then r == Record(env.id, env.name, Succeeded, env.attempts, env.lastError)
    else
      var error := if outcome.error == "" then None else Some(outcome.error);
      if env.attempts < m then r == Record(env.id, env.name, Retrying, env.attempts + 1, error)
      else r == Record(env.id, env.name, Dead, env.attempts, error)
  }

  lemma EnqueueShows(s: System, b: Bounds, p: Policy, env: Envelope, delay: real, now: real)
    requires b.Valid()
    ensures Shows(Act(s, b, p, Enqueue(env, delay, now)).q.status,
                  Record(env.id, env.name, if env.attempts == 0 then Status.Queued else Retrying,
                         env.attempts, env.lastError))
  {
    TrackedShows(s.q.status, RecordOf(env, if env.attempts != 0 then Retrying else Status.Queued), b.status);
  }

  lemma ReserveShows(s: System, b: Bounds, p: Policy, now: real, env: Envelope)
    requires b.Valid() && ServedBy(s, b, Reserve(now)) == [env]
    ensures Shows(Act(s, b, p, Reserve(now)).q.status,
                  Record(env.id, env.name, Running, env.attempts, env.lastError))
  {
    TrackedShows(s.q.status, RecordOf(env, Running), b.status);
  }

  /** A settlement is recorded as what it was; a burial also ends the dead letters. */
  lemma FinishShows(s: System, b: Bounds, p: Policy, i: nat, outcome: Outcome, now: real, m: int) returns (r: Record)
    requires b.Valid() && i < |s.inFlight| && (s.inFlight[i].name in p.registry ==> LimitIs(p, s.inFlight[i], m))
    ensures Final(p, s.inFlight[i], m, outcome, r)
    ensures Shows(Act(s, b, p, Finish(i, outcome, now)).q.status, r)
    ensures var dead := Act(s, b, p, Finish(i, outcome, now)).q.dead;
            if r.status == Dead then dead != [] && dead[|dead| - 1] == r else dead == s.q.dead
  {
    var env := s.inFlight[i];
    var settlement := Decide(p, env, outcome);
    r := FinalRecord(env, settlement);
    DecisionByCases(p, env, outcome, m);
    SettledTables(s.q, b, env, settlement, now);
    TrackedShows(s.q.status, r, b.status);
  }

  /** The action is about another task. */
  predicate Elsewhere(s: System, b: Bounds, a: Action, id: string) {
    match a
    case Enqueue(env, _, _) => env.id != id
    case Reserve(_) => forall e :: e in ServedBy(s, b, a) ==> e.id != id
    case Finish(i, _, _) => i < |s.inFlight| ==> s.inFlight[i].id != id
    case Inspect(_) => true
  }

  ghost predicate AllElsewhere(s: System, b: Bounds, p: Policy, actions: seq<Action>, id: string)
    decreases |actions|
  {
    actions != [] ==> Elsewhere(s, b, actions[0], id) && AllElsewhere(Act(s, b, p, actions[0]), b, p, actions[1..], id)
  }

  lemma OtherWrite(table: seq<Record>, other: Record, max: nat, r: Record)
    requires Only(table, r) && other.id != r.id
    ensures Only(Tracked(table, other, max), r)
  {
    forall x | x in Tracked(table, other, max) && x.id == r.id ensures x == r {
      assert x in Without(table, other.id) + [other];
    }
  }

  lemma ElsewhereKeeps(s: System, b: Bounds, p: Policy, a: Action, r: Record)
    requires Only(s.q.status, r) && Elsewhere(s, b, a, r.id)
    ensures Only(Act(s, b, p, a).q.status, r)
  {
    match a
    case Enqueue(env, _, _) =>
      OtherWrite(s.q.status, RecordOf(env, if env.attempts != 0 then Retrying else Status.Queued), b.status, r);
    case Reserve(now) =>
      var env := Reserved(s.q, b, now).1;
      if env.Some? {
        assert env.value in ServedBy(s, b, a);
        OtherWrite(s.q.status, RecordOf(env.value, Running), b.status, r);
      }
    case Finish(i, outcome, now) =>
      if i < |s.inFlight| {
        var settlement := Decide(p, s.inFlight[i], outcome);
        SettledTables(s.q, b, s.inFlight[i], settlement, now);
        OtherWrite(s.q.status, FinalRecord(s.inFlight[i], settlement), b.status, r);
      }
    case Inspect(_) =>
  }

  /**
   Until something happens to the task again, a lookup finds the record it was last given, or
   nothing once that has been evicted.
   */
  lemma {:induction false} StatusUntilNext(s: System, b: Bounds, p: Policy, actions: seq<Action>, r: Record)
    requires Only(s.q.status, r) && AllElsewhere(s, b, p, actions, r.id)
    ensures Only(Run(s, b, p, actions).q.status, r)
    decreases |actions|
  {
    if actions != [] {
      ElsewhereKeeps(s, b, p, actions[0], r);
      StatusUntilNext(Act(s, b, p, actions[0]), b, p, actions[1..], r);
    }
  }

  /** From its enqueueing to its success a task is shown queued, then running, then succeeded. */
  lemma StatusOfALife(
    s: System, b: Bounds, p: Policy, env: Envelope, delay: real, now: real, waiting: seq<Action>, taken: real,
    running: seq<Action>, i: nat, done: real, after: seq<Action>, s1: System, s2: System, s3: System)
    requires b.Valid() && env.attempts == 0 && env.name in p.registry
    requires s1 == Run(Act(s, b, p, Enqueue(env, delay, now)), b, p, waiting)
    requires AllElsewhere(Act(s, b, p, Enqueue(env, delay, now)), b, p, waiting, env.id)
    requires ServedBy(s1, b, Reserve(taken)) == [env]
    requires s2 == Run(Act(s1, b, p, Reserve(taken)), b, p, running)
    requires AllElsewhere(Act(s1, b, p, Reserve(taken)), b, p, running, env.id)
    requires i < |s2.inFlight| && s2.inFlight[i] == env
    requires s3 == Run(Act(s2, b, p, Finish(i, Returned, done)), b, p, after)
    requires AllElsewhere(Act(s2, b, p, Finish(i, Returned, done)), b, p, after, env.id)
    ensures Only(s1.q.status, Record(env.id, env.name, Status.Queued, 0, env.lastError))
    ensures Only(s2.q.status, Record(env.id, env.name, Running, 0, env.lastError))
    ensures Only(s3.q.status, Record(env.id, env.name, Succeeded, 0, env.lastError))
  {
    EnqueueShows(s, b, p, env, delay, now);
    StatusUntilNext(Act(s, b, p, Enqueue(env, delay, now)), b, p, waiting,
                    Record(env.id, env.name, Status.Queued, 0, env.lastError));
    ReserveShows(s1, b, p, taken, env);
    StatusUntilNext(Act(s1, b, p, Reserve(taken)), b, p, running, Record(env.id, env.name, Running, 0, env.lastError));
    SuccessShows(s2, b, p, i, done, env);
    StatusUntilNext(Act(s2, b, p, Finish(i, Returned, done)), b, p, after,
                    Record(env.id, env.name, Succeeded, 0, env.lastError));
  }

  lemma SuccessShows(s: System, b: Bounds, p: Policy, i: nat, now: real, env: Envelope)
    requires b.Valid() && i < |s.inFlight| && s.inFlight[i] == env && env.name in p.registry
    ensures Shows(Act(s, b, p, Finish(i, Returned, now)).q.status,
                  Record(env.id, env.name, Succeeded, env.attempts, env.lastError))
  {
    var m := Limit(p, env);
    var r := FinishShows(s, b, p, i, Returned, now, m);
  }
}
