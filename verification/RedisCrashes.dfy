/**
 The Redis queue command by command: workers and promoters may stop between any two commands
 of a method. A task is in danger exactly between the command that takes its last copy away and
 the one that puts it back.
 */
module RedisCrashes {
  import opened Common
  import opened Tasks
  import opened RedisTaskQueue

  /** What follows the removal of a message: nothing, another try later, or the dead letters. */
  datatype Fate = Succeed(id: string) | Again(env: Envelope, at: real) | Entomb(env: Envelope) {
    function Id(): string {
      if Succeed? then id else env.id
    }
  }

  /** The next command: XACK, XDEL, or the ZADD or LPUSH behind them. */
  datatype Stage = AtAck | AtDelete | AtAdd

  /** What a worker is in the middle of. Each message a process has claimed counts as a worker. */
  datatype Duty =
    | Holding(held: Held, claimed: bool)
    | Removing(token: nat, fate: Fate, stage: Stage)
    | Promoting(member: Envelope, removed: bool)

  datatype World = World(
    store: Store, duties: map<Worker, Duty>, now: real,
    enqueued: set<string>, succeeded: set<string>, dead: set<string>)

  datatype Act =
    | Submit(env: Envelope, delay: real)
    | Pass(dt: real)
    | Read(w: Worker, token: nat)
    | Claim(w: Worker, token: nat)
    | Settle(w: Worker, outcome: Outcome)
    | Withdraw(w: Worker, member: Envelope)
    | Command(w: Worker)
    | PutBack(w: Worker)   // the XADD of a promotion fails, and the member is scheduled again
    | Stop(w: Worker)

  predicate IsAt(world: World, w: Worker, stage: Stage) {
    w in world.duties && world.duties[w].Removing? && world.duties[w].stage == stage
  }

  predicate Can(c: Config, world: World, a: Act) {
    match a
    case Submit(env, _) => env.id !in world.enqueued
    case Pass(dt) => dt >= 0.0
    case Read(w, token) => w !in world.duties && IsNext(world.store, token)
    case Claim(w, token) =>
      && w !in world.duties && token in world.store.pending && token in world.store.stream
      && world.now - world.store.pending[token] >= c.visibility
    case Settle(w, _) => w in world.duties && world.duties[w].Holding?
    case Withdraw(w, member) =>
      w !in world.duties && member in world.store.delayed && world.store.delayed[member] <= world.now
    case Command(w) => w in world.duties && !world.duties[w].Holding?
    case PutBack(w) => w in world.duties && world.duties[w].Promoting? && world.duties[w].removed
    case Stop(w) => w in world.duties
  }

  function FateOf(held: Held, settlement: Settlement, now: real): Fate {
    match settlement
    case Ack => Succeed(held.env.id)
    case Retry(delay, error) => Again(Failed(held.env, error), now + NonNegative(delay as real))
    case Bury(error) => Entomb(Buried(held.env, error))
  }

  /** A claimed message is always retried; any other as its worker decides. */
  function FateFor(c: Config, duty: Duty, outcome: Outcome, now: real): Fate
    requires duty.Holding?
  {
    if duty.claimed then Again(Failed(duty.held.env, RECLAIM_ERROR), now + ReclaimDelay(c.policy.backoff))
    else FateOf(duty.held, Decide(c.policy, duty.held.env, outcome), now)
  }

  function Acknowledged(st: Store, token: nat): Store {
    st.(pending := st.pending - {token})
  }

  function Deleted(st: Store, token: nat): Store {
    st.(stream := st.stream - {token})
  }

  function Added(world: World, fate: Fate): World {
    match fate
    case Succeed(_) => world
    case Again(env, at) => world.(store := Scheduled(world.store, env, at))
    case Entomb(env) => world.(dead := world.dead + {env.id})
  }

  function Free(world: World, w: Worker): World {
    world.(duties := world.duties - {w})
  }

  function Advanced(world: World, w: Worker, duty: Duty): World {
    world.(duties := world.duties[w := duty])
  }

  /** The next command of a worker takes effect. */
  function Commanded(world: World, w: Worker): World
    requires w in world.duties && !world.duties[w].Holding?
  {
    match world.duties[w]
    case Removing(token, fate, AtAck) =>
      Advanced(world.(store := Acknowledged(world.store, token)), w, Removing(token, fate, AtDelete))
    case Removing(token, fate, AtDelete) =>
      var deleted := world.(store := Deleted(world.store, token));
      if fate.Succeed? then Free(deleted, w) else Advanced(deleted, w, Removing(token, fate, AtAdd))
    case Removing(_, fate, AtAdd) => Free(Added(world, fate), w)
    case Promoting(member, false) =>
      if member in world.store.delayed
      then Advanced(world.(store := Withdrawn(world.store, member)), w, Promoting(member, true))
      else Free(world, w)
    case Promoting(member, true) => Free(world.(store := Posted(world.store, member)), w)
  }

  function After(c: Config, world: World, a: Act): World
    requires Can(c, world, a)
  {
    match a
    case Submit(env, delay) =>
      world.(store := if delay > 0.0 then Scheduled(world.store, env, world.now + delay) else Posted(world.store, env),
             enqueued := world.enqueued + {env.id})
    case Pass(dt) => world.(now := world.now + dt)
    case Read(w, token) =>
      Advanced(world.(store := Delivered(world.store, token, world.now)), w,
               Holding(Held(token, world.store.stream[token]), false))
    case Claim(w, token) =>
      Advanced(world.(store := world.store.(pending := world.store.pending[token := world.now])), w,
               Holding(Held(token, world.store.stream[token]), true))
    case Settle(w, outcome) =>
      var duty := world.duties[w];
      var fate := FateFor(c, duty, outcome, world.now);
      Advanced(world.(succeeded := if fate.Succeed? then world.succeeded + {fate.id} else world.succeeded), w,
               Removing(duty.held.token, fate, AtAck))
    case Withdraw(w, member) => Advanced(world, w, Promoting(member, false))
    case Command(w) => Commanded(world, w)
    case PutBack(w) =>
      var member := world.duties[w].member;
      Free(world.(store := Scheduled(world.store, member, world.now + 5.0)), w)
    case Stop(w) => Free(world, w)
  }

  const NEW := World(EMPTY, map[], 0.0, {}, {}, {})

  ghost predicate IsRun(c: Config, world: World, acts: seq<Act>)
    decreases |acts|
  {
    acts != [] ==> Can(c, world, acts[0]) && IsRun(c, After(c, world, acts[0]), acts[1..])
  }

  ghost function EndOf(c: Config, world: World, acts: seq<Act>): World
    requires IsRun(c, world, acts)
    decreases |acts|
  {
    if acts == [] then world else EndOf(c, After(c, world, acts[0]), acts[1..])
  }

  // ------------------------------------------------------------------ copies and gaps

  /** A message is alive while the group has yet to deliver it or still counts it as pending. */
  predicate LiveMessage(st: Store, token: nat) {
    token in st.stream && (token >= st.delivered || token in st.pending)
  }

  ghost predicate HasLiveCopy(st: Store, id: string) {
    || (exists t :: LiveMessage(st, t) && st.stream[t].id == id)
    || (exists e :: e in st.delayed && e.id == id)
  }

  /** The worker has taken a copy of `id` away and still owes the command that puts it back. */
  predicate Carries(duty: Duty, id: string) {
    match duty
    case Holding(_, _) => false
    case Removing(_, fate, stage) => !fate.Succeed? && stage != AtAck && fate.Id() == id
    case Promoting(member, removed) => removed && member.id == id
  }

  ghost predicate CarriedBy(world: World, w: Worker, id: string) {
    w in world.duties && Carries(world.duties[w], id)
  }

  ghost predicate Safe(world: World, id: string) {
    || id in world.succeeded || id in world.dead || HasLiveCopy(world.store, id)
    || (exists w :: CarriedBy(world, w, id))
  }

  ghost predicate NothingLost(world: World) {
    forall id :: id in world.enqueued ==> Safe(world, id)
  }

  /** Outside `lost`, nothing is lost. */
  ghost predicate OnlyLost(world: World, lost: set<string>) {
    forall id :: id in world.enqueued && id !in lost ==> Safe(world, id)
  }

  ghost predicate StoreSound(st: Store) {
    && st.delivered <= st.next
    && (forall t :: t in st.stream ==> t < st.next)
    && (forall t :: t in st.pending ==> t < st.delivered)
  }

  /** A worker's message, if still there, is of the task that the worker thinks it is. */
  ghost predicate DutySound(world: World, duty: Duty) {
    match duty
    case Holding(held, _) =>
      && held.token < world.store.delivered
      && (held.token in world.store.stream ==> world.store.stream[held.token].id == held.env.id)
    case Removing(token, fate, _) =>
      && token < world.store.delivered && (fate.Succeed? ==> fate.id in world.succeeded)
      && (token in world.store.stream ==> world.store.stream[token].id == fate.Id())
    case Promoting(_, _) => true
  }

  ghost predicate Sound(world: World) {
    StoreSound(world.store) && forall w :: w in world.duties ==> DutySound(world, world.duties[w])
  }

  // ------------------------------------------------------------------ what every act keeps

  lemma CommandedSound(world: World, w: Worker)
    requires Sound(world) && w in world.duties && !world.duties[w].Holding?
    ensures Sound(Commanded(world, w))
  {
    var t := Commanded(world, w);
    forall v | v in t.duties ensures DutySound(t, t.duties[v]) {
      assert DutySound(world, world.duties[v]) && DutySound(world, world.duties[w]);
    }
  }

  lemma ActSound(c: Config, world: World, a: Act)
    requires Sound(world) && Can(c, world, a)
    ensures Sound(After(c, world, a))
  {
    if a.Command? {
      CommandedSound(world, a.w);
    } else {
      var t := After(c, world, a);
      forall v | v in t.duties ensures DutySound(t, t.duties[v]) {
        assert v in world.duties ==> DutySound(world, world.duties[v]);
      }
    }
  }

  /** A copy that an act leaves where it was still counts. */
  lemma CopyStays(st: Store, st': Store, id: string)
    requires HasLiveCopy(st, id)
    requires forall t :: LiveMessage(st, t) && st.stream[t].id == id ==> LiveMessage(st', t) && st'.stream[t].id == id
    requires forall e :: e in st.delayed && e.id == id ==> e in st'.delayed
    ensures HasLiveCopy(st', id)
  {
    if t :| LiveMessage(st, t) && st.stream[t].id == id {
      assert LiveMessage(st', t) && st'.stream[t].id == id;
    } else {
      var e :| e in st.delayed && e.id == id;
      assert e in st'.delayed;
    }
  }

  lemma PostedCopy(st: Store, env: Envelope, id: string)
    requires StoreSound(st) && (HasLiveCopy(st, id) || id == env.id)
    ensures HasLiveCopy(Posted(st, env), id)
  {
    var p := Posted(st, env);
    if id == env.id {
      assert LiveMessage(p, st.next) && p.stream[st.next].id == id;
    } else {
      CopyStays(st, p, id);
    }
  }

  lemma ScheduledCopy(st: Store, env: Envelope, at: real, id: string)
    requires HasLiveCopy(st, id) || id == env.id
    ensures HasLiveCopy(Scheduled(st, env, at), id)
  {
    var p := Scheduled(st, env, at);
    if id == env.id {
      assert env in p.delayed;
    } else {
      CopyStays(st, p, id);
    }
  }

  /** Someone else's duty is not touched. */
  lemma OthersCarry(world: World, t: World, w: Worker, v: Worker, id: string)
    requires CarriedBy(world, v, id) && v != w && t.duties - {w} == world.duties - {w}
    ensures CarriedBy(t, v, id)
  {
    assert v in world.duties - {w};
    assert v in t.duties - {w};
    assert (t.duties - {w})[v] == (world.duties - {w})[v];
  }

  /** A worker's own command: what it takes away it then carries, or has just put back. */
  lemma CommandKeeps(world: World, w: Worker, id: string)
    requires Sound(world) && w in world.duties && !world.duties[w].Holding? && Safe(world, id)
    ensures Safe(Commanded(world, w), id)
  {
    var t, duty := Commanded(world, w), world.duties[w];
    assert DutySound(world, duty);
    if v :| CarriedBy(world, v, id) && v != w {
      OthersCarry(world, t, w, v, id);
    } else if Carries(duty, id) {
      OwnCarried(world, w, id);
    } else if HasLiveCopy(world.store, id) {
      CommandCopy(world, w, id);
    }
  }

  lemma OwnCarried(world: World, w: Worker, id: string)
    requires Sound(world) && CarriedBy(world, w, id)
    ensures Safe(Commanded(world, w), id)
  {
    var t := Commanded(world, w);
    match world.duties[w]
    case Removing(token, fate, AtDelete) => assert CarriedBy(t, w, id);
    case Removing(_, fate, AtAdd) =>
      if fate.Again? {
        ScheduledCopy(world.store, fate.env, fate.at, id);
      }
    case Promoting(member, true) => PostedCopy(world.store, member, id);
  }

  lemma CommandCopy(world: World, w: Worker, id: string)
    requires Sound(world) && w in world.duties && !world.duties[w].Holding? && HasLiveCopy(world.store, id)
    ensures Safe(Commanded(world, w), id)
  {
    var t := Commanded(world, w);
    assert DutySound(world, world.duties[w]);
    match world.duties[w]
    case Removing(token, fate, AtAck) =>
      if fate.Id() == id {
        assert !fate.Succeed? ==> CarriedBy(t, w, id);
      } else {
        CopyStays(world.store, t.store, id);
      }
    case Removing(token, fate, AtDelete) =>
      if fate.Id() == id {
        assert !fate.Succeed? ==> CarriedBy(t, w, id);
      } else {
        CopyStays(world.store, t.store, id);
      }
    case Removing(_, fate, AtAdd) =>
      if fate.Again? {
        ScheduledCopy(world.store, fate.env, fate.at, id);
      }
    case Promoting(member, false) =>
      if member.id == id && member in world.store.delayed {
        assert CarriedBy(t, w, id);
      } else {
        CopyStays(world.store, t.store, id);
      }
    case Promoting(member, true) => PostedCopy(world.store, member, id);
  }

  /** Every other act but a stop leaves a safe task safe. */
  lemma OtherKeeps(c: Config, world: World, a: Act, id: string)
    requires Sound(world) && Can(c, world, a) && !a.Command? && !a.Stop? && !a.PutBack? && Safe(world, id)
    ensures Safe(After(c, world, a), id)
  {
    var t := After(c, world, a);
    if v :| CarriedBy(world, v, id) {
      assert CarriedBy(t, v, id);
    } else if HasLiveCopy(world.store, id) {
      if a.Submit? {
        if a.delay > 0.0 { ScheduledCopy(world.store, a.env, world.now + a.delay, id); }
        else { PostedCopy(world.store, a.env, id); }
      } else {
        CopyStays(world.store, t.store, id);
      }
    }
  }

  lemma PutBackKeeps(c: Config, world: World, w: Worker, id: string)
    requires Sound(world) && Can(c, world, PutBack(w)) && Safe(world, id)
    ensures Safe(After(c, world, PutBack(w)), id)
  {
    var t, member := After(c, world, PutBack(w)), world.duties[w].member;
    if id == member.id || HasLiveCopy(world.store, id) {
      ScheduledCopy(world.store, member, world.now + 5.0, id);
    } else if v :| CarriedBy(world, v, id) {
      OthersCarry(world, t, w, v, id);
    }
  }

  lemma SubmitSafe(c: Config, world: World, env: Envelope, delay: real)
    requires Sound(world) && Can(c, world, Submit(env, delay))
    ensures Safe(After(c, world, Submit(env, delay)), env.id)
  {
    if delay > 0.0 {
      ScheduledCopy(world.store, env, world.now + delay, env.id);
    } else {
      PostedCopy(world.store, env, env.id);
    }
  }

  /** The tasks a worker takes with it when it stops now. */
  function Dropped(a: Act, world: World): set<string> {
    if a.Stop? && a.w in world.duties then
      match world.duties[a.w]
      case Holding(_, _) => {}
      case Removing(_, fate, stage) => if !fate.Succeed? && stage != AtAck then {fate.Id()} else {}
      case Promoting(member, removed) => if removed then {member.id} else {}
    else {}
  }

  lemma StopKeeps(c: Config, world: World, w: Worker, id: string)
    requires Can(c, world, Stop(w)) && Safe(world, id) && id !in Dropped(Stop(w), world)
    ensures Safe(After(c, world, Stop(w)), id)
  {
    var t := After(c, world, Stop(w));
    if v :| CarriedBy(world, v, id) {
      OthersCarry(world, t, w, v, id);
    }
  }

  lemma ActLoses(c: Config, world: World, a: Act, lost: set<string>)
    requires Sound(world) && Can(c, world, a) && OnlyLost(world, lost)
    ensures OnlyLost(After(c, world, a), lost + Dropped(a, world))
  {
    var t := After(c, world, a);
    forall id | id in t.enqueued && id !in lost + Dropped(a, world) ensures Safe(t, id) {
      match a
      case Submit(env, delay) =>
        if id == env.id {
          SubmitSafe(c, world, env, delay);
        } else {
          OtherKeeps(c, world, a, id);
        }
      case Command(w) => CommandKeeps(world, w, id);
      case PutBack(w) => PutBackKeeps(c, world, w, id);
      case Stop(w) => StopKeeps(c, world, w, id);
      case _ => OtherKeeps(c, world, a, id);
    }
  }

  // ------------------------------------------------------------------ every run

  /** The tasks some worker was carrying when it stopped. */
  ghost function DroppedIn(c: Config, world: World, acts: seq<Act>): set<string>
    requires IsRun(c, world, acts)
    decreases |acts|
  {
    if acts == [] then {} else Dropped(acts[0], world) + DroppedIn(c, After(c, world, acts[0]), acts[1..])
  }

  lemma {:induction false} RunLoses(c: Config, world: World, acts: seq<Act>, lost: set<string>)
    requires Sound(world) && OnlyLost(world, lost) && IsRun(c, world, acts)
    ensures Sound(EndOf(c, world, acts)) && OnlyLost(EndOf(c, world, acts), lost + DroppedIn(c, world, acts))
    decreases |acts|
  {
    if acts == [] {
      assert lost + {} == lost;
    } else {
      ActSound(c, world, acts[0]);
      ActLoses(c, world, acts[0], lost);
      RunLoses(c, After(c, world, acts[0]), acts[1..], lost + Dropped(acts[0], world));
      assert lost + DroppedIn(c, world, acts)
          == lost + Dropped(acts[0], world) + DroppedIn(c, After(c, world, acts[0]), acts[1..]);
    }
  }

  /**
   Over every run in which any worker may stop between any two commands, only a task that a
   worker was carrying when it stopped can be lost.
   */
  lemma NoLossOutsideGaps(c: Config, acts: seq<Act>)
    requires IsRun(c, NEW, acts)
    ensures OnlyLost(EndOf(c, NEW, acts), DroppedIn(c, NEW, acts))
    ensures DroppedIn(c, NEW, acts) == {} ==> NothingLost(EndOf(c, NEW, acts))
  {
    RunLoses(c, NEW, acts, {});
    assert {} + DroppedIn(c, NEW, acts) == DroppedIn(c, NEW, acts);
  }

  /** What keeps a task safe without the worker `w`. */
  ghost predicate SafeWithout(world: World, w: Worker, id: string) {
    || id !in world.enqueued || id in world.succeeded || id in world.dead || HasLiveCopy(world.store, id)
    || (exists v :: v != w && CarriedBy(world, v, id))
  }

  /**
   A stop loses something if and only if the worker carries a task that has not succeeded, is
   not among the dead letters, has no live copy, and that nobody else carries.
   */
  lemma StopLosesIff(c: Config, world: World, w: Worker)
    requires NothingLost(world) && Can(c, world, Stop(w))
    ensures NothingLost(After(c, world, Stop(w)))
       <==> forall id :: Carries(world.duties[w], id) ==> SafeWithout(world, w, id)
  {
    var t := After(c, world, Stop(w));
    forall id ensures id in t.enqueued ==> (Safe(t, id) <==> SafeWithout(world, w, id)) {
      if v :| CarriedBy(t, v, id) {
        assert v != w && CarriedBy(world, v, id);
      }
      if v :| v != w && CarriedBy(world, v, id) {
        OthersCarry(world, t, w, v, id);
      }
    }
    forall id | id in t.enqueued && !Carries(world.duties[w], id) ensures SafeWithout(world, w, id) {
      assert Safe(world, id);
    }
  }

  // ------------------------------------------------------------------ uninterrupted methods

  lemma Prepended(c: Config, world: World, a: Act, rest: seq<Act>) returns (acts: seq<Act>)
    requires Can(c, world, a) && IsRun(c, After(c, world, a), rest)
    ensures acts == [a] + rest && IsRun(c, world, acts)
    ensures EndOf(c, world, acts) == EndOf(c, After(c, world, a), rest)
  {
    acts := [a] + rest;
    assert acts[1..] == rest;
  }

  /** Where a settlement's commands leave the world when nothing interrupts them. */
  function SettledAtOnce(c: Config, world: World, w: Worker, outcome: Outcome): World
    requires Can(c, world, Settle(w, outcome))
  {
    var removed := Commanded(Commanded(After(c, world, Settle(w, outcome)), w), w);
    if IsAt(removed, w, AtAdd) then Commanded(removed, w) else removed
  }

  /** They add up to the one step of the method. */
  lemma UninterruptedSettlement(c: Config, world: World, w: Worker, outcome: Outcome)
    requires Can(c, world, Settle(w, outcome)) && !world.duties[w].claimed
    ensures var held := world.duties[w].held;
            var step := RedisTaskQueue.Settled(
              State(world.store, map[], world.now, world.enqueued, world.succeeded, world.dead), held,
              Decide(c.policy, held.env, outcome));
            var end := SettledAtOnce(c, world, w, outcome);
            && end.store == step.store && end.succeeded == step.succeeded && end.dead == step.buried
            && end.duties == world.duties - {w}
  {
    var held := world.duties[w].held;
    var end := SettledAtOnce(c, world, w, outcome);
    assert (world.duties - {w}) == end.duties;
  }

  /** Submitting, waiting and reading are the steps of `RedisTaskQueue`; a crash is a stop. */
  lemma OtherActsAgree(c: Config, world: World, hands: map<Worker, Held>, env: Envelope, delay: real, dt: real, w: Worker, token: nat)
    ensures var s := State(world.store, hands, world.now, world.enqueued, world.succeeded, world.dead);
            && (Can(c, world, Submit(env, delay)) ==>
                  && Enabled(c, s, Enqueue(env, delay))
                  && After(c, world, Submit(env, delay)).store == RedisTaskQueue.After(c, s, Enqueue(env, delay)).store
                  && After(c, world, Submit(env, delay)).enqueued == world.enqueued + {env.id})
            && (Can(c, world, Pass(dt)) <==> Enabled(c, s, Tick(dt)))
            && (Can(c, world, Pass(dt)) ==> After(c, world, Pass(dt)) == world.(now := world.now + dt))
            && (Can(c, world, Read(w, token)) && w !in hands ==>
                  && Enabled(c, s, Reserve(w, token))
                  && After(c, world, Read(w, token)).store == RedisTaskQueue.After(c, s, Reserve(w, token)).store)
  {
  }

  /** A claim waits for the visibility timeout, and starts it again for everybody else. */
  lemma ClaimInWords(c: Config, world: World, w: Worker, v: Worker, token: nat)
    ensures Can(c, world, Claim(w, token)) <==>
            && w !in world.duties && token in world.store.pending && token in world.store.stream
            && world.store.pending[token] + c.visibility <= world.now
    ensures Can(c, world, Claim(w, token)) ==>
              var t := After(c, world, Claim(w, token));
              && (c.visibility > 0.0 ==> !Can(c, t, Claim(v, token))) && t.store.stream == world.store.stream
              && t.store.delayed == world.store.delayed && w in t.duties
              && t.duties[w] == Holding(Held(token, world.store.stream[token]), true)
  {
  }

  /** The same for a claimed message: its commands add up to the reclaim step. */
  lemma UninterruptedReclaim(c: Config, world: World, w: Worker, token: nat, outcome: Outcome)
    requires Can(c, world, Claim(w, token))
    ensures var claimed := After(c, world, Claim(w, token));
            && Can(c, claimed, Settle(w, outcome))
            && SettledAtOnce(c, claimed, w, outcome).store == Reclaimed(world.store, token, c.policy.backoff, world.now)
            && SettledAtOnce(c, claimed, w, outcome).duties == world.duties - {w}
  {
    var claimed := After(c, world, Claim(w, token));
    var end := SettledAtOnce(c, claimed, w, outcome);
    assert (world.duties - {w}) == end.duties;
    assert end.store.pending == world.store.pending - {token};
  }

  lemma UninterruptedPromotion(c: Config, world: World, w: Worker, member: Envelope)
    requires Can(c, world, Withdraw(w, member))
    ensures var taken := After(c, world, Withdraw(w, member));
            var removed := Commanded(taken, w);
            && Can(c, taken, Command(w)) && Can(c, removed, Command(w))
            && Commanded(removed, w).store == Posted(Withdrawn(world.store, member), member)
            && After(c, removed, PutBack(w)).store == Scheduled(Withdrawn(world.store, member), member, world.now + 5.0)
  {
  }

  // ------------------------------------------------------------------ each gap is reached

  /** A task submitted without a delay and read by worker 0. */
  function InHand(env: Envelope): World {
    World(Store(map[0 := env], 1, 1, map[0 := 0.0], map[]), map[0 := Holding(Held(0, env), false)], 0.0, {env.id}, {}, {})
  }

  lemma ReachHand(c: Config, env: Envelope, rest: seq<Act>) returns (acts: seq<Act>)
    requires IsRun(c, InHand(env), rest)
    ensures IsRun(c, NEW, acts) && EndOf(c, NEW, acts) == EndOf(c, InHand(env), rest)
  {
    var posted := After(c, NEW, Submit(env, 0.0));
    assert IsNext(posted.store, 0);
    assert After(c, posted, Read(0, 0)) == InHand(env);
    acts := Prepended(c, posted, Read(0, 0), rest);
    acts := Prepended(c, NEW, Submit(env, 0.0), acts);
  }

  /** The worker stops behind the XACK or behind the XDEL of a retry or a burial. */
  lemma StopInsideSettlement(c: Config, env: Envelope, outcome: Outcome, deleted: bool) returns (acts: seq<Act>)
    requires !Decide(c.policy, env, outcome).Ack?
    ensures IsRun(c, NEW, acts)
    ensures var end := EndOf(c, NEW, acts); env.id in end.enqueued && !Safe(end, env.id)
  {
    var s0 := InHand(env);
    var s1 := After(c, s0, Settle(0, outcome));
    var s2 := After(c, s1, Command(0));
    if deleted {
      var s3 := After(c, s2, Command(0));
      var s4 := After(c, s3, Stop(0));
      NoCopyLeft(s4, env.id);
      acts := Prepended(c, s3, Stop(0), []);
      acts := Prepended(c, s2, Command(0), acts);
    } else {
      var s3 := After(c, s2, Stop(0));
      NoCopyLeft(s3, env.id);
      acts := Prepended(c, s2, Stop(0), []);
    }
    acts := Prepended(c, s1, Command(0), acts);
    acts := Prepended(c, s0, Settle(0, outcome), acts);
    acts := ReachHand(c, env, acts);
  }

  lemma NoCopyLeft(world: World, id: string)
    requires world.duties == map[] && world.store.delayed == map[] && world.succeeded == {} && world.dead == {}
    requires world.store.pending == map[] && forall t :: t in world.store.stream ==> t < world.store.delivered
    ensures !Safe(world, id)
  {
  }

  /** A promoter stops between the ZREM and the XADD. */
  lemma StopInsidePromotion(c: Config, env: Envelope) returns (acts: seq<Act>)
    ensures IsRun(c, NEW, acts)
    ensures var end := EndOf(c, NEW, acts); env.id in end.enqueued && !Safe(end, env.id)
  {
    var s1 := After(c, NEW, Submit(env, 1.0));
    var s2 := After(c, s1, Pass(1.0));
    var s3 := After(c, s2, Withdraw(0, env));
    var s4 := After(c, s3, Command(0));
    var s5 := After(c, s4, Stop(0));
    NoCopyLeft(s5, env.id);
    acts := Prepended(c, s4, Stop(0), []);
    acts := Prepended(c, s3, Command(0), acts);
    acts := Prepended(c, s2, Withdraw(0, env), acts);
    acts := Prepended(c, s1, Pass(1.0), acts);
    acts := Prepended(c, NEW, Submit(env, 1.0), acts);
  }
}
