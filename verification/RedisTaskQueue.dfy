/**
 The Redis Streams queue as its clients see it: a stream read by one consumer group, the
 group's pending entries, and a sorted set of delayed tasks. Each client method is one step;
 any number of workers take steps in any order, may crash holding a task, and may be slow
 enough to have it reclaimed while they still run it.
 */
module RedisTaskQueue {
  import opened Common
  import opened Tasks

  datatype Store = Store(
    stream: map<nat, Envelope>,     // messages not deleted, by id
    next: nat,                      // the id the next message gets
    delivered: nat,                 // every message below this id has been handed to a worker
    pending: map<nat, real>,        // delivered and not acknowledged: the time of delivery
    delayed: map<Envelope, real>)   // the sorted set: when each member is due

  function Posted(st: Store, env: Envelope): Store {
    st.(stream := st.stream[st.next := env], next := st.next + 1)
  }

  function Removed(st: Store, token: nat): Store {
    st.(stream := st.stream - {token}, pending := st.pending - {token})
  }

  function Scheduled(st: Store, env: Envelope, at: real): Store {
    st.(delayed := st.delayed[env := at])
  }

  function Withdrawn(st: Store, env: Envelope): Store {
    st.(delayed := st.delayed - {env})
  }

  function NonNegative(delay: real): real {
    if delay < 0.0 then 0.0 else delay
  }

  function Rescheduled(st: Store, token: nat, env: Envelope, delay: real, error: string, now: real): Store {
    Scheduled(Removed(st, token), Failed(env, error), now + NonNegative(delay))
  }

  const RECLAIM_ERROR := "reclaimed from stale consumer"

  function ReclaimDelay(backoff: int): real {
    Min(60, Max(0, backoff)) as real
  }

  function Reclaimed(st: Store, token: nat, backoff: int, now: real): Store
    requires token in st.stream
  {
    Rescheduled(st, token, st.stream[token], ReclaimDelay(backoff), RECLAIM_ERROR, now)
  }

  predicate IsNext(st: Store, token: nat) {
    && token in st.stream && token >= st.delivered
    && forall t :: t in st.stream && t >= st.delivered ==> token <= t
  }

  function Delivered(st: Store, token: nat, now: real): Store {
    st.(delivered := token + 1, pending := st.pending[token := now])
  }

  /** The group is handed undelivered messages lowest id first, so each is next at some point. */
  lemma {:induction false} FirstUndelivered(st: Store, t: nat) returns (first: nat)
    requires t in st.stream && t >= st.delivered
    ensures first <= t && IsNext(st, first)
    decreases t
  {
    if u :| u in st.stream && st.delivered <= u < t {
      first := FirstUndelivered(st, u);
    } else {
      first := t;
    }
  }

  // ------------------------------------------------------------------ the transition system

  type Worker = nat

  datatype Held = Held(token: nat, env: Envelope)

  datatype Config = Config(policy: Policy, visibility: real)

  datatype State = State(
    store: Store, hands: map<Worker, Held>, now: real,
    enqueued: set<string>, succeeded: set<string>, buried: set<string>)

  datatype Step =
    | Enqueue(env: Envelope, delay: real)
    | Tick(dt: real)
    | Promote(env: Envelope, posted: bool)
    | Reserve(worker: Worker, token: nat)
    | Finish(worker: Worker, outcome: Outcome)
    | Crash(worker: Worker)
    | Reclaim(token: nat)

  ghost predicate Enabled(c: Config, s: State, step: Step) {
    match step
    case Enqueue(env, _) => env.id !in s.enqueued
    case Tick(dt) => dt >= 0.0
    case Promote(env, _) => env in s.store.delayed && s.store.delayed[env] <= s.now
    case Reserve(w, token) => w !in s.hands && IsNext(s.store, token)
    case Finish(w, _) => w in s.hands
    case Crash(w) => w in s.hands
    case Reclaim(token) =>
      token in s.store.pending && token in s.store.stream && s.now - s.store.pending[token] >= c.visibility
  }

  ghost function After(c: Config, s: State, step: Step): State
    requires Enabled(c, s, step)
  {
    match step
    case Enqueue(env, delay) =>
      s.(store := if delay > 0.0 then Scheduled(s.store, env, s.now + delay) else Posted(s.store, env),
         enqueued := s.enqueued + {env.id})
    case Tick(dt) => s.(now := s.now + dt)
    case Promote(env, posted) =>
      s.(store := if posted then Posted(Withdrawn(s.store, env), env)
                  else Scheduled(Withdrawn(s.store, env), env, s.now + 5.0))
    case Reserve(w, token) =>
      s.(store := Delivered(s.store, token, s.now), hands := s.hands[w := Held(token, s.store.stream[token])])
    case Finish(w, outcome) =>
      var held := s.hands[w];
      Settled(s.(hands := s.hands - {w}), held, Decide(c.policy, held.env, outcome))
    case Crash(w) => s.(hands := s.hands - {w})
    case Reclaim(token) => s.(store := Reclaimed(s.store, token, c.policy.backoff, s.now))
  }

  function Settled(s: State, held: Held, settlement: Settlement): State {
    match settlement
    case Ack => s.(store := Removed(s.store, held.token), succeeded := s.succeeded + {held.env.id})
    case Retry(delay, error) =>
      s.(store := Rescheduled(s.store, held.token, held.env, delay as real, error, s.now))
    case Bury(_) => s.(store := Removed(s.store, held.token), buried := s.buried + {held.env.id})
  }

  const EMPTY := Store(map[], 0, 0, map[], map[])

  function Start(now: real): State {
    State(EMPTY, map[], now, {}, {}, {})
  }

  ghost predicate IsRun(c: Config, s: State, steps: seq<Step>)
    decreases |steps|
  {
    steps != [] ==> Enabled(c, s, steps[0]) && IsRun(c, After(c, s, steps[0]), steps[1..])
  }

  ghost function EndOf(c: Config, s: State, steps: seq<Step>): State
    requires IsRun(c, s, steps)
    decreases |steps|
  {
    if steps == [] then s else EndOf(c, After(c, s, steps[0]), steps[1..])
  }

  // ------------------------------------------------------------------ no task is lost

  ghost predicate StoreSound(st: Store, now: real) {
    && st.delivered <= st.next
    && (forall t :: t in st.stream ==> t < st.next)
    && (forall t :: t in st.pending <==> t in st.stream && t < st.delivered)
    && (forall t :: t in st.pending ==> st.pending[t] <= now)
  }

  ghost predicate HandsSound(st: Store, hands: map<Worker, Held>) {
    && (forall w :: w in hands ==> hands[w].token < st.delivered)
    && (forall w :: w in hands && hands[w].token in st.stream ==> st.stream[hands[w].token] == hands[w].env)
  }

  ghost predicate Consistent(s: State) {
    StoreSound(s.store, s.now) && HandsSound(s.store, s.hands)
  }

  ghost predicate Known(s: State) {
    && (forall t :: t in s.store.stream ==> s.store.stream[t].id in s.enqueued)
    && (forall e :: e in s.store.delayed ==> e.id in s.enqueued)
    && (forall w :: w in s.hands ==> s.hands[w].env.id in s.enqueued)
  }

  ghost predicate InStream(st: Store, id: string) {
    exists t :: t in st.stream && st.stream[t].id == id
  }

  ghost predicate InDelayed(st: Store, id: string) {
    exists e :: e in st.delayed && e.id == id
  }

  ghost predicate HasCopy(st: Store, id: string) {
    InStream(st, id) || InDelayed(st, id)
  }

  /** Every task not yet done with has a copy in the stream or among the delayed. */
  ghost predicate NothingLost(s: State) {
    forall id :: id in s.enqueued && id !in s.succeeded && id !in s.buried ==> HasCopy(s.store, id)
  }

  lemma PostedSound(st: Store, env: Envelope, hands: map<Worker, Held>, now: real)
    requires StoreSound(st, now) && HandsSound(st, hands)
    ensures StoreSound(Posted(st, env), now) && HandsSound(Posted(st, env), hands)
  {
  }

  lemma RemovedSound(st: Store, token: nat, hands: map<Worker, Held>, now: real)
    requires StoreSound(st, now) && HandsSound(st, hands)
    ensures StoreSound(Removed(st, token), now) && HandsSound(Removed(st, token), hands)
  {
  }

  lemma RescheduledSound(st: Store, hands: map<Worker, Held>, now: real, token: nat, env: Envelope, delay: real,
                         error: string)
    requires StoreSound(st, now) && HandsSound(st, hands)
    ensures StoreSound(Rescheduled(st, token, env, delay, error, now), now)
    ensures HandsSound(Rescheduled(st, token, env, delay, error, now), hands)
  {
    RemovedSound(st, token, hands, now);
  }

  lemma DeliveredSound(st: Store, token: nat, hands: map<Worker, Held>, w: Worker, now: real)
    requires StoreSound(st, now) && HandsSound(st, hands) && IsNext(st, token)
    ensures StoreSound(Delivered(st, token, now), now)
    ensures HandsSound(Delivered(st, token, now), hands[w := Held(token, st.stream[token])])
  {
  }

  lemma StepConsistent(c: Config, s: State, step: Step)
    requires Consistent(s) && Enabled(c, s, step)
    ensures Consistent(After(c, s, step))
  {
    match step
    case Enqueue(env, _) => PostedSound(s.store, env, s.hands, s.now);
    case Tick(_) =>
    case Promote(env, _) => PostedSound(Withdrawn(s.store, env), env, s.hands, s.now);
    case Reserve(w, token) => DeliveredSound(s.store, token, s.hands, w, s.now);
    case Finish(w, outcome) =>
      var held := s.hands[w];
      var rest := s.(hands := s.hands - {w});
      assert Consistent(rest);
      SettledConsistent(rest, held, Decide(c.policy, held.env, outcome));
    case Crash(w) =>
    case Reclaim(token) =>
      RescheduledSound(s.store, s.hands, s.now, token, s.store.stream[token], ReclaimDelay(c.policy.backoff),
                       RECLAIM_ERROR);
  }

  lemma SettledConsistent(s: State, held: Held, settlement: Settlement)
    requires Consistent(s)
    ensures Consistent(Settled(s, held, settlement))
  {
    RemovedSound(s.store, held.token, s.hands, s.now);
    if settlement.Retry? {
      RescheduledSound(s.store, s.hands, s.now, held.token, held.env, settlement.delay as real, settlement.error);
    }
  }

  lemma StepKnown(c: Config, s: State, step: Step)
    requires Consistent(s) && Known(s) && Enabled(c, s, step)
    ensures Known(After(c, s, step))
  {
  }

  lemma PostKeeps(st: Store, env: Envelope, id: string)
    requires HasCopy(st, id) && forall t :: t in st.stream ==> t < st.next
    ensures HasCopy(Posted(st, env), id) && HasCopy(Posted(st, env), env.id)
  {
    var p := Posted(st, env);
    assert p.stream[st.next] == env;
    if t :| t in st.stream && st.stream[t].id == id {
      assert p.stream[t].id == id;
    } else {
      var e :| e in st.delayed && e.id == id;
      assert e in p.delayed;
    }
  }

  lemma ScheduleKeeps(st: Store, env: Envelope, at: real, id: string)
    ensures HasCopy(st, id) ==> HasCopy(Scheduled(st, env, at), id)
    ensures HasCopy(Scheduled(st, env, at), env.id)
  {
    var p := Scheduled(st, env, at);
    assert env in p.delayed;
    if t :| t in st.stream && st.stream[t].id == id {
      assert t in p.stream;
    } else if e :| e in st.delayed && e.id == id {
      assert e in p.delayed;
    }
  }

  /** Deleting one message touches no task but its own. */
  lemma RemoveKeeps(st: Store, token: nat, id: string)
    requires HasCopy(st, id) && (token in st.stream ==> st.stream[token].id != id)
    ensures HasCopy(Removed(st, token), id)
  {
    var p := Removed(st, token);
    if t :| t in st.stream && st.stream[t].id == id {
      assert t in p.stream;
    } else {
      var e :| e in st.delayed && e.id == id;
      assert e in p.delayed;
    }
  }

  lemma RescheduleKeeps(st: Store, token: nat, env: Envelope, delay: real, error: string, now: real, id: string)
    requires token in st.stream ==> st.stream[token].id == env.id
    requires HasCopy(st, id) || id == env.id
    ensures HasCopy(Rescheduled(st, token, env, delay, error, now), id)
  {
    if id != env.id {
      RemoveKeeps(st, token, id);
    }
    ScheduleKeeps(Removed(st, token), Failed(env, error), now + NonNegative(delay), id);
  }

  lemma PromoteKeeps(s: State, env: Envelope, posted: bool, id: string)
    requires Consistent(s) && env in s.store.delayed && HasCopy(s.store, id)
    ensures var w := Withdrawn(s.store, env);
            HasCopy(if posted then Posted(w, env) else Scheduled(w, env, s.now + 5.0), id)
  {
    var w := Withdrawn(s.store, env);
    if id == env.id {
      assert Posted(w, env).stream[w.next] == env;
      ScheduleKeeps(w, env, s.now + 5.0, id);
    } else {
      if t :| t in s.store.stream && s.store.stream[t].id == id {
        assert t in w.stream;
      } else {
        var e :| e in s.store.delayed && e.id == id;
        assert e in w.delayed;
      }
      PostKeeps(w, env, id);
      ScheduleKeeps(w, env, s.now + 5.0, id);
    }
  }

  lemma DeliverKeeps(st: Store, token: nat, now: real, id: string)
    requires HasCopy(st, id)
    ensures HasCopy(Delivered(st, token, now), id)
  {
    if t :| t in st.stream && st.stream[t].id == id {
      assert t in Delivered(st, token, now).stream;
    } else {
      var e :| e in st.delayed && e.id == id;
      assert e in Delivered(st, token, now).delayed;
    }
  }

  lemma FinishKeeps(s: State, held: Held, settlement: Settlement, id: string)
    requires held.token in s.store.stream ==> s.store.stream[held.token] == held.env
    requires HasCopy(s.store, id)
    ensures var t := Settled(s, held, settlement);
            id in t.succeeded || id in t.buried || HasCopy(t.store, id)
  {
    match settlement
    case Retry(delay, error) =>
      RescheduleKeeps(s.store, held.token, held.env, delay as real, error, s.now, id);
    case _ =>
      if held.env.id != id {
        RemoveKeeps(s.store, held.token, id);
      }
  }

  lemma StepLosesNothing(c: Config, s: State, step: Step)
    requires Consistent(s) && NothingLost(s) && Enabled(c, s, step)
    ensures NothingLost(After(c, s, step))
  {
    var t := After(c, s, step);
    forall id | id in t.enqueued && id !in t.succeeded && id !in t.buried ensures HasCopy(t.store, id) {
      match step
      case Enqueue(env, delay) =>
        ScheduleKeeps(s.store, env, s.now + delay, id);
        if id != env.id { PostKeeps(s.store, env, id); }
        assert Posted(s.store, env).stream[s.store.next] == env;
      case Tick(_) =>
      case Promote(env, posted) => PromoteKeeps(s, env, posted, id);
      case Reserve(w, token) => DeliverKeeps(s.store, token, s.now, id);
      case Finish(w, outcome) =>
        FinishKeeps(s.(hands := s.hands - {w}), s.hands[w], Decide(c.policy, s.hands[w].env, outcome), id);
      case Crash(_) =>
      case Reclaim(token) =>
        RescheduleKeeps(s.store, token, s.store.stream[token], ReclaimDelay(c.policy.backoff), RECLAIM_ERROR, s.now, id);
    }
  }

  /** Over every run of every number of workers, crashing or slow, no task is lost. */
  lemma {:induction false} NoLoss(c: Config, s: State, steps: seq<Step>)
    requires Consistent(s) && Known(s) && NothingLost(s) && IsRun(c, s, steps)
    ensures var t := EndOf(c, s, steps); Consistent(t) && Known(t) && NothingLost(t)
    decreases |steps|
  {
    if steps != [] {
      StepConsistent(c, s, steps[0]);
      StepKnown(c, s, steps[0]);
      StepLosesNothing(c, s, steps[0]);
      NoLoss(c, After(c, s, steps[0]), steps[1..]);
    }
  }

  lemma StartsWell(now: real)
    ensures Consistent(Start(now)) && Known(Start(now)) && NothingLost(Start(now))
  {
  }

  /** A worker whose task was reclaimed meanwhile removes nothing when it settles after all. */
  lemma StaleSettlementIsHarmless(c: Config, s: State, w: Worker, outcome: Outcome)
    requires Consistent(s) && w in s.hands && s.hands[w].token !in s.store.stream
    ensures var t := After(c, s, Finish(w, outcome)).store;
            t.stream == s.store.stream && t.pending == s.store.pending && t.delayed.Keys >= s.store.delayed.Keys
  {
  }
}
