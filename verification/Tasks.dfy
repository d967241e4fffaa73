/** Task envelopes, status records, and the worker's decision after a run. */
module Tasks {
  import opened Common

  /** What travels through a queue. `attempts` counts failed runs and reclaims so far. */
  datatype Envelope = Envelope(
    id: string, name: string, body: string,
    attempts: nat, maxRetries: Option<int>, lastError: Option<string>)

  datatype Status = Queued | Running | Succeeded | Retrying | Dead

  datatype Record = Record(id: string, name: string, status: Status, attempts: nat, lastError: Option<string>)

  function RecordOf(env: Envelope, status: Status): Record {
    Record(env.id, env.name, status, env.attempts, env.lastError)
  }

  function ErrorOf(error: string): Option<string> {
    if error == "" then None else Some(error)
  }

  function Failed(env: Envelope, error: string): Envelope {
    env.(attempts := env.attempts + 1, lastError := ErrorOf(error))
  }

  function Buried(env: Envelope, error: string): Envelope {
    env.(lastError := ErrorOf(error))
  }

  // ------------------------------------------------------------------ the worker's decision

  /** Registered task names, each with its own retry limit if it declares one. */
  type Registry = map<string, Option<int>>

  datatype Policy = Policy(registry: Registry, maxRetries: int, backoff: int)

  datatype Outcome = Returned | Raised(error: string)

  datatype Settlement = Ack | Retry(delay: int, error: string) | Bury(error: string)

  /** The envelope's limit, else the task's, else the global one. */
  function Limit(p: Policy, env: Envelope): int
    requires env.name in p.registry
  {
    match env.maxRetries
    case Some(m) => m
    case None =>
      match p.registry[env.name]
      case Some(m) => m
      case None => p.maxRetries
  }

  /** How a worker settles a reservation, given what running the handler did. */
  function Decide(p: Policy, env: Envelope, outcome: Outcome): Settlement {
    if env.name !in p.registry then Bury("task not registered: " + env.name)
    else
      match outcome
      case Returned => Ack
      case Raised(error) =>
        if env.attempts < Limit(p, env)
        then Retry(Max(0, p.backoff) * Pow2(env.attempts), error)
        else Bury(error)
  }

  /** The task's limit is `m`: by its own word, else by its registration, else globally. */
  predicate LimitIs(p: Policy, env: Envelope, m: int)
    requires env.name in p.registry
  {
    || env.maxRetries == Some(m)
    || (env.maxRetries == None && p.registry[env.name] == Some(m))
    || (env.maxRetries == None && p.registry[env.name] == None && p.maxRetries == m)
  }

  /** Every decision there is, case by case. */
  lemma DecisionByCases(p: Policy, env: Envelope, outcome: Outcome, m: int)
    requires env.name in p.registry ==> LimitIs(p, env, m)
    ensures env.name !in p.registry ==> Decide(p, env, outcome) == Bury("task not registered: " + env.name)
    ensures env.name in p.registry && outcome == Returned ==> Decide(p, env, outcome) == Ack
    ensures env.name in p.registry && outcome.Raised? && env.attempts >= m ==>
              Decide(p, env, outcome) == Bury(outcome.error)
    ensures env.name in p.registry && outcome.Raised? && env.attempts < m ==>
              Decide(p, env, outcome) == Retry((if p.backoff > 0 then p.backoff else 0) * Pow2(env.attempts), outcome.error)
  {
  }

  // ------------------------------------------------------------------ the retry budget

  /** One copy's life: its handler raises, or a worker reclaims it from a stale owner. */
  datatype Event = Raises(error: string) | Reclaims

  /** Failing runs, the delays scheduled behind them, and whether the copy was buried. */
  datatype Life = Life(runs: nat, delays: seq<int>, buried: bool)

  function LifeOf(p: Policy, env: Envelope, events: seq<Event>): Life
    requires env.name in p.registry
    decreases |events|
  {
    if events == [] then Life(0, [], false)
    else
      match events[0]
      case Reclaims =>
        LifeOf(p, Failed(env, "reclaimed from stale consumer"), events[1..])
      case Raises(error) =>
        match Decide(p, env, Raised(error))
        case Retry(delay, e) =>
          var rest := LifeOf(p, Failed(env, e), events[1..]);
          Life(1 + rest.runs, [delay] + rest.delays, rest.buried)
        case _ => Life(1, [], true)
  }

  function Sum(delays: seq<int>): int {
    if delays == [] then 0 else delays[0] + Sum(delays[1..])
  }

  /** Runs a copy has left before it must be buried, the burying run included. */
  function RunsLeft(p: Policy, env: Envelope): nat
    requires env.name in p.registry
  {
    Max(0, Limit(p, env) - env.attempts) + 1
  }

  /** The life of a copy that fails `n` times in a row. */
  predicate Budgeted(p: Policy, env: Envelope, n: nat, life: Life)
    requires env.name in p.registry
  {
    var left := RunsLeft(p, env);
    && life.runs == Min(n, left) && (life.buried <==> n >= left)
    && Sum(life.delays) == Max(0, p.backoff) * (Pow2(env.attempts + Min(n, left - 1)) - Pow2(env.attempts))
  }

  /**
   Without reclaims a failing task runs until its budget is spent, is buried exactly by the
   run that spends it, and its delays double from the first.
   */
  lemma {:induction false} RetryBudget(p: Policy, env: Envelope, events: seq<Event>)
    requires env.name in p.registry && forall e :: e in events ==> e.Raises?
    ensures Budgeted(p, env, |events|, LifeOf(p, env, events))
    decreases |events|
  {
    if events != [] {
      assert events[0] in events && events[0].Raises?;
      var next := Failed(env, events[0].error);
      if env.attempts < Limit(p, env) {
        RetryBudget(p, next, events[1..]);
        LifeRetried(p, env, events);
        OneRunMore(p, env, next, |events| - 1, LifeOf(p, next, events[1..]));
      }
    }
  }

  lemma OneRunMore(p: Policy, env: Envelope, next: Envelope, n: nat, rest: Life)
    requires env.name in p.registry && env.attempts < Limit(p, env)
    requires next.name == env.name && next.maxRetries == env.maxRetries && next.attempts == env.attempts + 1
    requires Budgeted(p, next, n, rest)
    ensures Budgeted(p, env, n + 1, Life(1 + rest.runs, [Max(0, p.backoff) * Pow2(env.attempts)] + rest.delays, rest.buried))
  {
    SumCons(Max(0, p.backoff) * Pow2(env.attempts), rest.delays);
    DelaysDouble(Max(0, p.backoff), env.attempts, Pow2(next.attempts + Min(n, RunsLeft(p, next) - 1)));
  }

  lemma LifeRetried(p: Policy, env: Envelope, events: seq<Event>)
    requires env.name in p.registry && events != [] && events[0].Raises? && env.attempts < Limit(p, env)
    ensures (var rest := LifeOf(p, Failed(env, events[0].error), events[1..]);
             LifeOf(p, env, events)
             == Life(1 + rest.runs, [Max(0, p.backoff) * Pow2(env.attempts)] + rest.delays, rest.buried))
  {
  }

  lemma SumCons(first: int, delays: seq<int>)
    ensures Sum([first] + delays) == first + Sum(delays)
  {
  }

  lemma DelaysDouble(backoff: nat, attempts: nat, last: int)
    ensures backoff * Pow2(attempts) + backoff * (last - Pow2(attempts + 1)) == backoff * (last - Pow2(attempts))
  {
    assert Pow2(attempts + 1) == 2 * Pow2(attempts);
  }

  /**
   From the first attempt, with limit m: m + 1 runs at most, burial by failure m + 1 and not
   before, and m delays summing to backoff * (2^m - 1). A negative limit counts as zero.
   */
  lemma FreshTaskBudget(p: Policy, env: Envelope, m: int, events: seq<Event>)
    requires env.name in p.registry && env.attempts == 0 && LimitIs(p, env, m)
    requires forall e :: e in events ==> e.Raises?
    ensures var life, retries := LifeOf(p, env, events), if m > 0 then m else 0;
            && life.runs <= retries + 1
            && (life.buried <==> |events| >= retries + 1)
            && (life.buried ==> life.runs == retries + 1
                                && Sum(life.delays) == Max(0, p.backoff) * (Pow2(retries) - 1))
  {
    RetryBudget(p, env, events);
    assert Pow2(0) == 1;
  }

  /** Reclaims only use the budget up: no lineage ever has more failing runs than it allows. */
  lemma {:induction false} ReclaimsSpendBudget(p: Policy, env: Envelope, events: seq<Event>)
    requires env.name in p.registry
    ensures LifeOf(p, env, events).runs <= RunsLeft(p, env)
    decreases |events|
  {
    if events != [] {
      var next := Failed(env, if events[0].Raises? then events[0].error else "reclaimed from stale consumer");
      ReclaimsSpendBudget(p, next, events[1..]);
    }
  }
}
