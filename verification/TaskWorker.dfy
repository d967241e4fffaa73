/** The consumer of the in-process queue: reserve, run the handler, settle once, count. */
module TaskWorker {
  import opened Common
  import opened Tasks
  import opened MemoryTaskQueue

  class TaskWorker {
    const policy: Policy
    const queue: MemoryTaskQueue
    var processed: nat
    var failed: nat
    ghost var acks: nat     // settlements of each kind, as the queue saw them
    ghost var retries: nat
    ghost var burials: nat

    /** Retries are not counted as processed; only burials are counted as failed. */
    ghost predicate Valid()
      reads this
    {
      processed == acks + burials && failed == burials
    }

    constructor (policy: Policy, queue: MemoryTaskQueue)
      ensures Valid() && this.policy == policy && this.queue == queue
      ensures acks == retries == burials == 0
    {
      this.policy, this.queue := policy, queue;
      processed, failed, acks, retries, burials := 0, 0, 0, 0, 0;
    }

    method Count(failure: bool)
      modifies this`processed, this`failed
      ensures processed == old(processed) + 1
      ensures failed == old(failed) + if failure then 1 else 0
    {
      processed := processed + 1;
      if failure {
        failed := failed + 1;
      }
    }

    /**
     Settles one reservation whose handler ended with `outcome`: exactly one queue operation,
     the one the worker's decision names.
     */
    method Handle(env: Envelope, outcome: Outcome, now: real)
      requires Valid()
      modifies this, queue
      ensures Valid()
      ensures queue.State() == Settled(old(queue.State()), queue.bounds, env, Decide(policy, env, outcome), now)
      ensures acks + retries + burials == old(acks + retries + burials) + 1
      ensures (acks > old(acks) <==> env.name in policy.registry && outcome.Returned?)
      ensures forall m {:trigger LimitIs(policy, env, m)} :: (env.name in policy.registry ==> LimitIs(policy, env, m)) ==>
                (burials > old(burials) <==> env.name !in policy.registry || (outcome.Raised? && env.attempts >= m))
      ensures acks >= old(acks) && retries >= old(retries) && burials >= old(burials)
    {
      if env.name !in policy.registry {
        queue.Kill(env, "task not registered: " + env.name);
        burials := burials + 1;
        Count(true);
        return;
      }
      if outcome.Raised? {
        if env.attempts < Limit(policy, env) {
          var delay := Max(0, policy.backoff) * Pow2(env.attempts);
          queue.Retry(env, delay as real, outcome.error, now);
          retries := retries + 1;
        } else {
          queue.Kill(env, outcome.error);
          burials := burials + 1;
          Count(true);
        }
        return;
      }
      queue.Ack(env);
      acks := acks + 1;
      Count(false);
    }

    /** Reserves at most one task and settles it; `outcome` is what its handler would do. */
    method ProcessOne(outcome: Outcome, now: real, later: real) returns (handled: bool)
      requires Valid()
      modifies this, queue
      ensures Valid()
      ensures var (reserved, env) := Reserved(old(queue.State()), queue.bounds, now);
              && handled == env.Some?
              && acks + retries + burials == old(acks + retries + burials) + (if handled then 1 else 0)
              && queue.State() == if env.None? then reserved
                                  else Settled(reserved, queue.bounds, env.value,
                                               Decide(policy, env.value, outcome), later)
    {
      var reserved := queue.TryReserve(now);
      if reserved.None? {
        return false;
      }
      Handle(reserved.value, outcome, later);
      return true;
    }
  }
}
