/**
 The retry budget over runs of the Redis queue: a copy of a task is followed from place to place,
 through retries and reclaims, and its failing runs are counted.
 */
module RedisLineage {
  import opened Common
  import opened Tasks
  import opened RedisTaskQueue

  datatype Place = InStream(token: nat) | InDelayed(env: Envelope) | InHand(w: Worker)

  predicate Stands(s: State, p: Place) {
    match p
    case InStream(token) => token in s.store.stream
    case InDelayed(env) => env in s.store.delayed
    case InHand(w) => w in s.hands
  }

  function EnvAt(s: State, p: Place): Envelope
    requires Stands(s, p)
  {
    match p
    case InStream(token) => s.store.stream[token]
    case InDelayed(env) => env
    case InHand(w) => s.hands[w].env
  }

  /** The copy is the message that the worker holds, in the stream or in its hand. */
  predicate IsHeld(s: State, w: Worker, p: Place)
    requires w in s.hands
  {
    p == InHand(w) || p == InStream(s.hands[w].token)
  }

  /** Where a copy at `p` may be found after a step; a copy that is settled or crashed away has no such place. */
  ghost predicate Descends(c: Config, s: State, step: Step, p: Place, q: Place)
    requires Enabled(c, s, step)
  {
    match step
    case Promote(env, posted) =>
      if p == InDelayed(env) then q == (if posted then InStream(s.store.next) else p) else q == p
    case Reserve(w, token) => q == p || (p == InStream(token) && q == InHand(w))
    case Finish(w, outcome) =>
      if IsHeld(s, w, p) then
        var settlement := Decide(c.policy, s.hands[w].env, outcome);
        settlement.Retry? && q == InDelayed(Failed(s.hands[w].env, settlement.error))
      else q == p
    case Crash(w) => p != InHand(w) && q == p
    case Reclaim(token) =>
      if p == InStream(token) then q == InDelayed(Failed(s.store.stream[token], RECLAIM_ERROR)) else q == p
    case _ => q == p
  }

  /** The step is a failing run of the copy at `p`. */
  predicate FailsHere(c: Config, s: State, step: Step, p: Place) {
    step.Finish? && step.outcome.Raised? && step.worker in s.hands && IsHeld(s, step.worker, p)
  }

  /** The places of one copy in the first states of a run. */
  ghost predicate IsLineage(c: Config, s: State, steps: seq<Step>, places: seq<Place>)
    requires IsRun(c, s, steps)
    decreases |steps|
  {
    && places != [] && Stands(s, places[0])
    && (|places| > 1 ==>
          && steps != [] && Descends(c, s, steps[0], places[0], places[1])
          && IsLineage(c, After(c, s, steps[0]), steps[1..], places[1..]))
  }

  /** Failing runs of a lineage, the burying one included. */
  ghost function Failures(c: Config, s: State, steps: seq<Step>, places: seq<Place>): nat
    requires IsRun(c, s, steps) && IsLineage(c, s, steps, places)
    decreases |steps|
  {
    if steps == [] then 0
    else
      (if FailsHere(c, s, steps[0], places[0]) then 1 else 0)
      + if |places| > 1 then Failures(c, After(c, s, steps[0]), steps[1..], places[1..]) else 0
  }

  /** Each failing run that has a descendant uses one up; nothing gives one back. */
  lemma StepSpends(c: Config, s: State, step: Step, p: Place, q: Place)
    requires Consistent(s) && Enabled(c, s, step) && Stands(s, p) && Descends(c, s, step, p, q)
    requires Stands(After(c, s, step), q) && EnvAt(s, p).name in c.policy.registry
    ensures EnvAt(After(c, s, step), q).name == EnvAt(s, p).name
    ensures RunsLeft(c.policy, EnvAt(After(c, s, step), q)) + (if FailsHere(c, s, step, p) then 1 else 0)
         <= RunsLeft(c.policy, EnvAt(s, p))
  {
    if step.Finish? && IsHeld(s, step.worker, p) {
      assert EnvAt(s, p) == s.hands[step.worker].env;
    }
  }

  /**
   Through retries, crashes and reclaims, no lineage ever has more failing runs than its first
   copy had left: m + 1 from attempt zero.
   */
  lemma {:induction false} LineageBudget(c: Config, s: State, steps: seq<Step>, places: seq<Place>)
    requires Consistent(s) && IsRun(c, s, steps) && IsLineage(c, s, steps, places)
    requires EnvAt(s, places[0]).name in c.policy.registry
    ensures Failures(c, s, steps, places) <= RunsLeft(c.policy, EnvAt(s, places[0]))
    decreases |steps|
  {
    if steps != [] && |places| > 1 {
      StepConsistent(c, s, steps[0]);
      StepSpends(c, s, steps[0], places[0], places[1]);
      LineageBudget(c, After(c, s, steps[0]), steps[1..], places[1..]);
    }
  }

  /** Places are followed faithfully: where a copy is said to go, a copy is. */
  lemma DescendantStands(c: Config, s: State, step: Step, p: Place, q: Place)
    requires Consistent(s) && Enabled(c, s, step) && Stands(s, p) && Descends(c, s, step, p, q)
    ensures Stands(After(c, s, step), q) && EnvAt(After(c, s, step), q).id == EnvAt(s, p).id
  {
    if step.Finish? && IsHeld(s, step.worker, p) {
      assert EnvAt(s, p) == s.hands[step.worker].env;
    }
  }
}
