/**
 No task is stuck: from every consistent state a schedule of waiting, reclaims, promotions,
 reservations and settlements of one worker puts any task that has a copy into its hands,
 whatever the handlers of the other tasks it runs on the way do. Batches and their intervals are
 the client's own.
 */
module RedisProgress {
  import opened Common
  import opened Tasks
  import opened RedisTaskQueue
  import opened RedisClient

  /** Seconds between two reclaims of one worker. */
  const RECLAIM_INTERVAL := 30.0

  /** The system, and the two throttles of the worker's process. */
  datatype Moment = Moment(s: State, lastPromote: real, lastReclaim: real)

  /** The one worker that is still there, and what its handlers do with each task. */
  datatype Site = Site(c: Config, worker: Worker, judge: Envelope -> Outcome)

  datatype Move =
    | Wait(dt: real)
    | PromoteBatch(due: seq<Envelope>)
    | ReclaimBatch(tokens: seq<nat>)
    | Take(token: nat)
    | Settle

  ghost predicate Due(s: State, e: Envelope) {
    e in s.store.delayed && s.store.delayed[e] <= s.now
  }

  /** The answer to the range query: due members, earliest first, as many as asked for. */
  ghost predicate IsDueBatch(s: State, due: seq<Envelope>) {
    && |due| <= PROMOTE_BATCH && Distinct(due)
    && (forall e :: e in due ==> Due(s, e))
    && (forall d, e :: d in due && Due(s, e) && e !in due ==> s.store.delayed[d] <= s.store.delayed[e])
    && (|due| == PROMOTE_BATCH || forall e :: Due(s, e) ==> e in due)
  }

  ghost predicate Stale(c: Config, s: State, t: nat) {
    t in s.store.pending && s.now - s.store.pending[t] >= c.visibility
  }

  /** The answer to the claim: stale pending messages, lowest ids first, as many as asked for. */
  ghost predicate IsStaleBatch(c: Config, s: State, tokens: seq<nat>) {
    && |tokens| <= RECLAIM_BATCH && Distinct(tokens)
    && (forall t :: t in tokens ==> Stale(c, s, t))
    && (forall t: nat, u: nat :: t in tokens && Stale(c, s, u) && u !in tokens ==> t < u)
    && (|tokens| == RECLAIM_BATCH || forall t :: Stale(c, s, t) ==> t in tokens)
  }

  /** The group has been handed every message: a reservation comes back empty. */
  ghost predicate Idle(s: State) {
    forall t :: t in s.store.stream ==> t < s.store.delivered
  }

  /** The worker is between two tasks. */
  predicate Free(x: Site, s: State) {
    x.worker !in s.hands
  }

  ghost predicate Allowed(x: Site, m: Moment, move: Move) {
    match move
    case Wait(dt) => dt >= 0.0
    case PromoteBatch(due) =>
      Free(x, m.s) && m.s.now - m.lastPromote >= PROMOTE_INTERVAL && IsDueBatch(m.s, due)
    case ReclaimBatch(tokens) =>
      && Free(x, m.s) && m.s.now - m.lastReclaim >= RECLAIM_INTERVAL
      && Idle(m.s) && IsStaleBatch(x.c, m.s, tokens)
    case Take(t) => Free(x, m.s) && IsNext(m.s.store, t)
    case Settle => !Free(x, m.s)
  }

  ghost function Moved(x: Site, m: Moment, move: Move): Moment
    requires Allowed(x, m, move)
  {
    match move
    case Wait(dt) => m.(s := After(x.c, m.s, Tick(dt)))
    case PromoteBatch(due) => m.(s := m.s.(store := PromotedAll(m.s.store, due)), lastPromote := m.s.now)
    case ReclaimBatch(tokens) =>
      m.(s := m.s.(store := ReclaimedAll(m.s.store, tokens, x.c.policy.backoff, m.s.now)), lastReclaim := m.s.now)
    case Take(t) => m.(s := After(x.c, m.s, Reserve(x.worker, t)))
    case Settle => m.(s := After(x.c, m.s, Finish(x.worker, x.judge(m.s.hands[x.worker].env))))
  }

  ghost predicate IsSchedule(x: Site, m: Moment, moves: seq<Move>)
    decreases |moves|
  {
    moves != [] ==> Allowed(x, m, moves[0]) && IsSchedule(x, Moved(x, m, moves[0]), moves[1..])
  }

  ghost function EndOfSchedule(x: Site, m: Moment, moves: seq<Move>): Moment
    requires IsSchedule(x, m, moves)
    decreases |moves|
  {
    if moves == [] then m else EndOfSchedule(x, Moved(x, m, moves[0]), moves[1..])
  }

  ghost predicate Sane(m: Moment) {
    Consistent(m.s) && m.lastPromote <= m.s.now && m.lastReclaim <= m.s.now
  }

  ghost predicate InHand(x: Site, s: State, id: string) {
    !Free(x, s) && s.hands[x.worker].env.id == id
  }

  /** A move and the schedule behind it. */
  lemma Prefixed(x: Site, m: Moment, move: Move, moves: seq<Move>)
    requires Allowed(x, m, move) && IsSchedule(x, Moved(x, m, move), moves)
    ensures IsSchedule(x, m, [move] + moves)
    ensures EndOfSchedule(x, m, [move] + moves) == EndOfSchedule(x, Moved(x, m, move), moves)
  {
    assert ([move] + moves)[1..] == moves;
  }

  lemma {:induction false} Chained(x: Site, m: Moment, a: seq<Move>, b: seq<Move>)
    requires IsSchedule(x, m, a) && IsSchedule(x, EndOfSchedule(x, m, a), b)
    ensures IsSchedule(x, m, a + b)
    ensures EndOfSchedule(x, m, a + b) == EndOfSchedule(x, EndOfSchedule(x, m, a), b)
    decreases |a|
  {
    if a == [] {
      assert a + b == b;
    } else {
      Chained(x, Moved(x, m, a[0]), a[1..], b);
      assert (a + b)[1..] == a[1..] + b;
    }
  }

  // ------------------------------------------------------------------ what batches do

  lemma {:induction false} PromotedAllMoves(st: Store, due: seq<Envelope>)
    requires forall t :: t in st.stream ==> t < st.next
    ensures var p := PromotedAll(st, due);
            && p.delivered == st.delivered && p.pending == st.pending && p.next >= st.next
            && p.delayed.Keys == st.delayed.Keys - (set e | e in due)
            && (forall e :: e in p.delayed ==> p.delayed[e] == st.delayed[e])
            && (forall t :: t in st.stream ==> t in p.stream && p.stream[t] == st.stream[t])
            && (forall e :: e in due && e in st.delayed ==> exists t :: t in p.stream && t >= st.next && p.stream[t] == e)
    decreases |due|
  {
    if due != [] {
      var next := if due[0] in st.delayed then Posted(Withdrawn(st, due[0]), due[0]) else st;
      PromotedAllMoves(next, due[1..]);
      var p := PromotedAll(next, due[1..]);
      forall e | e in due && e in st.delayed ensures exists t :: t in p.stream && t >= st.next && p.stream[t] == e {
        if e == due[0] {
          assert next.stream[st.next] == e && p.stream[st.next] == e;
        } else {
          assert e in due[1..] && e in next.delayed;
        }
      }
    }
  }

  lemma {:induction false} ReclaimedAllMoves(st: Store, tokens: seq<nat>, backoff: int, now: real)
    requires Distinct(tokens) && forall t :: t in tokens ==> t in st.stream
    ensures var r := ReclaimedAll(st, tokens, backoff, now);
            && r.delivered == st.delivered && r.next == st.next
            && r.pending.Keys == st.pending.Keys - (set t | t in tokens)
            && r.stream.Keys <= st.stream.Keys
            && r.delayed.Keys >= st.delayed.Keys
            && (forall t :: t in tokens ==> InDelayed(r, st.stream[t].id))
    decreases |tokens|
  {
    if tokens != [] {
      var next := Reclaimed(st, tokens[0], backoff, now);
      var rest := tokens[1..];
      forall t | t in rest ensures t in next.stream {
        var i :| 0 <= i < |rest| && rest[i] == t;
        assert rest[i] == tokens[i + 1] && tokens[i + 1] != tokens[0];
      }
      ReclaimedAllMoves(next, rest, backoff, now);
      var r := ReclaimedAll(next, rest, backoff, now);
      forall t | t in tokens ensures InDelayed(r, st.stream[t].id) {
        if t == tokens[0] {
          assert Failed(st.stream[t], RECLAIM_ERROR) in next.delayed;
        } else {
          assert t in rest;
        }
      }
    }
  }

  lemma MoveStaysSane(x: Site, m: Moment, move: Move)
    requires Sane(m) && Allowed(x, m, move)
    ensures Sane(Moved(x, m, move))
  {
    match move
    case Wait(dt) => StepConsistent(x.c, m.s, Tick(dt));
    case PromoteBatch(due) =>
      forall i | 0 <= i < |due| ensures Due(m.s, due[i]) {
        assert due[i] in due;
      }
      var posted := seq(|due|, i requires 0 <= i < |due| => true);
      assert forall i :: 0 <= i < |due| ==> due[i] in due && Due(m.s, due[i]);
      PromotionIsARun(x.c, m.s, due, posted);
      AllPosted(m.s.store, due, posted, m.s.now);
      RunConsistent(x.c, m.s, PromoteSteps(due, posted));
    case ReclaimBatch(tokens) =>
      forall i | 0 <= i < |tokens| ensures Enabled(x.c, m.s, Reclaim(tokens[i])) {
        assert tokens[i] in tokens;
      }
      assert forall i :: 0 <= i < |tokens| ==> tokens[i] in tokens && Stale(x.c, m.s, tokens[i]);
      ReclaimIsARun(x.c, m.s, tokens);
      RunConsistent(x.c, m.s, ReclaimSteps(tokens));
    case Take(t) => StepConsistent(x.c, m.s, Reserve(x.worker, t));
    case Settle => StepConsistent(x.c, m.s, Finish(x.worker, x.judge(m.s.hands[x.worker].env)));
  }

  lemma {:induction false} RunConsistent(c: Config, s: State, steps: seq<Step>)
    requires Consistent(s) && IsRun(c, s, steps)
    ensures Consistent(EndOf(c, s, steps))
    decreases |steps|
  {
    if steps != [] {
      StepConsistent(c, s, steps[0]);
      RunConsistent(c, After(c, s, steps[0]), steps[1..]);
    }
  }

  // ------------------------------------------------------------------ such batches exist

  lemma {:induction false} Earliest(s: State, among: set<Envelope>) returns (e: Envelope)
    requires among != {} && forall d :: d in among ==> d in s.store.delayed
    ensures e in among && forall d :: d in among ==> s.store.delayed[e] <= s.store.delayed[d]
    decreases among
  {
    e :| e in among;
    var rest := among - {e};
    assert forall x :: x in among ==> x == e || x in rest;
    if rest != {} {
      var d := Earliest(s, rest);
      e := if s.store.delayed[d] <= s.store.delayed[e] then d else e;
    }
  }

  lemma {:induction false} Pick(s: State, among: set<Envelope>, n: nat) returns (due: seq<Envelope>)
    requires forall d :: d in among ==> d in s.store.delayed
    ensures |due| <= n && Distinct(due) && forall e :: e in due ==> e in among
    ensures forall d, e :: d in due && e in among && e !in due ==> s.store.delayed[d] <= s.store.delayed[e]
    ensures |due| == n || forall e :: e in among ==> e in due
    decreases n
  {
    if n == 0 || among == {} {
      due := [];
    } else {
      var e := Earliest(s, among);
      var rest := Pick(s, among - {e}, n - 1);
      due := [e] + rest;
    }
  }

  lemma DueBatch(s: State) returns (due: seq<Envelope>)
    ensures IsDueBatch(s, due)
  {
    due := Pick(s, (set e | e in s.store.delayed && s.store.delayed[e] <= s.now), PROMOTE_BATCH);
  }

  lemma {:induction false} Lowest(among: set<nat>) returns (t: nat)
    requires among != {}
    ensures t in among && forall u :: u in among ==> t <= u
    decreases among
  {
    t :| t in among;
    var rest := among - {t};
    assert forall x :: x in among ==> x == t || x in rest;
    if rest != {} {
      var u := Lowest(rest);
      t := if u < t then u else t;
    }
  }

  lemma {:induction false} PickTokens(among: set<nat>, n: nat) returns (tokens: seq<nat>)
    ensures |tokens| <= n && Distinct(tokens) && forall t :: t in tokens ==> t in among
    ensures forall t, u :: t in tokens && u in among && u !in tokens ==> t < u
    ensures |tokens| == n || forall t :: t in among ==> t in tokens
    decreases n
  {
    if n == 0 || among == {} {
      tokens := [];
    } else {
      var t := Lowest(among);
      var rest := PickTokens(among - {t}, n - 1);
      tokens := [t] + rest;
    }
  }

  lemma StaleBatch(c: Config, s: State) returns (tokens: seq<nat>)
    ensures IsStaleBatch(c, s, tokens)
  {
    tokens := PickTokens((set t | t in s.store.pending && s.now - s.store.pending[t] >= c.visibility), RECLAIM_BATCH);
  }

  // ------------------------------------------------------------------ the schedule

  /** What a settlement leaves of the store: it touches its own message and the delayed set only. */
  lemma SettleLeaves(x: Site, m: Moment)
    requires Sane(m) && Allowed(x, m, Settle)
    ensures var held, st, st' := m.s.hands[x.worker], m.s.store, Moved(x, m, Settle).s.store;
            && Free(x, Moved(x, m, Settle).s)
            && st'.stream == st.stream - {held.token} && st'.pending == st.pending - {held.token}
            && st'.delivered == st.delivered && st'.next == st.next
  {
  }

  lemma SettleKeeps(x: Site, m: Moment, id: string)
    requires Sane(m) && Allowed(x, m, Settle) && !InHand(x, m.s, id) && HasCopy(m.s.store, id)
    ensures HasCopy(Moved(x, m, Settle).s.store, id)
  {
    var held := m.s.hands[x.worker];
    var settlement := Decide(x.c.policy, held.env, x.judge(held.env));
    if settlement.Retry? {
      RescheduleKeeps(m.s.store, held.token, held.env, settlement.delay as real, settlement.error, m.s.now, id);
    } else {
      RemoveKeeps(m.s.store, held.token, id);
    }
  }

  /** Takes the next message; unless it is the one looked for, settles it and is free again. */
  lemma TakeNext(x: Site, m: Moment, t: nat) returns (first: nat)
    requires Sane(m) && Free(x, m.s) && t in m.s.store.stream && t >= m.s.store.delivered
    ensures first <= t && Allowed(x, m, Take(first)) && Sane(Moved(x, m, Take(first)))
    ensures var m1 := Moved(x, m, Take(first));
            && Allowed(x, m1, Settle) && Sane(Moved(x, m1, Settle)) && Free(x, Moved(x, m1, Settle).s)
            && m1.s.hands[x.worker].env == m.s.store.stream[first]
  {
    first := FirstUndelivered(m.s.store, t);
    MoveStaysSane(x, m, Take(first));
    var m1 := Moved(x, m, Take(first));
    MoveStaysSane(x, m1, Settle);
    SettleLeaves(x, m1);
  }

  /** Taking and settling one message leaves every other one where it was. */
  lemma TakenAndSettled(x: Site, m: Moment, first: nat)
    requires Sane(m) && Allowed(x, m, Take(first)) && Sane(Moved(x, m, Take(first)))
    requires Allowed(x, Moved(x, m, Take(first)), Settle)
    ensures var st, st' := m.s.store, Moved(x, Moved(x, m, Take(first)), Settle).s.store;
            && st'.delivered == first + 1 && st'.next == st.next
            && (forall t :: t in st.stream && t != first ==> t in st'.stream && st'.stream[t] == st.stream[t])
            && (forall t :: t in st.pending ==> t in st'.pending && st'.pending[t] == st.pending[t])
            && (forall t :: t in st'.stream ==> t in st.stream && st'.stream[t] == st.stream[t])
  {
    var m1 := Moved(x, m, Take(first));
    SettleLeaves(x, m1);
    assert m1.s.hands[x.worker].token == first && first !in m.s.store.pending;
  }

  /** An undelivered message is reached by reservations alone: each raises the group's position. */
  lemma {:induction false} TakeUntil(x: Site, m: Moment, t: nat) returns (moves: seq<Move>)
    requires Sane(m) && Free(x, m.s) && t in m.s.store.stream && t >= m.s.store.delivered
    ensures IsSchedule(x, m, moves) && InHand(x, EndOfSchedule(x, m, moves).s, m.s.store.stream[t].id)
    decreases t - m.s.store.delivered
  {
    var first := TakeNext(x, m, t);
    var m1 := Moved(x, m, Take(first));
    if first == t {
      moves := [Take(t)];
      Prefixed(x, m, Take(t), []);
    } else {
      var m2 := Moved(x, m1, Settle);
      TakenAndSettled(x, m, first);
      moves := TakeUntil(x, m2, t);
      Prefixed(x, m1, Settle, moves);
      Prefixed(x, m, Take(first), [Settle] + moves);
      moves := [Take(first)] + ([Settle] + moves);
    }
  }

  /** A due task is reached by promotions: each full batch shrinks the delayed set. */
  lemma {:induction false} PromoteUntil(x: Site, m: Moment, e: Envelope) returns (moves: seq<Move>)
    requires Sane(m) && Free(x, m.s) && Due(m.s, e)
    ensures IsSchedule(x, m, moves) && InHand(x, EndOfSchedule(x, m, moves).s, e.id)
    decreases |m.s.store.delayed|
  {
    var m1 := Moved(x, m, Wait(PROMOTE_INTERVAL));
    MoveStaysSane(x, m, Wait(PROMOTE_INTERVAL));
    var due := DueBatch(m1.s);
    var m2 := Moved(x, m1, PromoteBatch(due));
    MoveStaysSane(x, m1, PromoteBatch(due));
    PromotedAllMoves(m1.s.store, due);
    if e in due {
      var t :| t in m2.s.store.stream && t >= m1.s.store.next && m2.s.store.stream[t] == e;
      moves := TakeUntil(x, m2, t);
    } else {
      assert due != [] && due[0] in due;
      FewerDelayed(m1.s.store, m2.s.store, due);
      moves := PromoteUntil(x, m2, e);
    }
    Prefixed(x, m1, PromoteBatch(due), moves);
    Prefixed(x, m, Wait(PROMOTE_INTERVAL), [PromoteBatch(due)] + moves);
    moves := [Wait(PROMOTE_INTERVAL)] + ([PromoteBatch(due)] + moves);
  }

  lemma FewerDelayed(st: Store, st': Store, due: seq<Envelope>)
    requires due != [] && due[0] in st.delayed && st'.delayed.Keys == st.delayed.Keys - (set e | e in due)
    ensures |st'.delayed| < |st.delayed|
  {
    assert due[0] in due;
    assert st.delayed.Keys == st'.delayed.Keys + (st.delayed.Keys - st'.delayed.Keys);
    assert |st'.delayed| == |st'.delayed.Keys| && |st.delayed| == |st.delayed.Keys|;
  }

  lemma FewerPending(st: Store, st': Store, tokens: seq<nat>)
    requires tokens != [] && tokens[0] in st.pending && st'.pending.Keys == st.pending.Keys - (set t | t in tokens)
    ensures |st'.pending| < |st.pending|
  {
    assert tokens[0] in tokens;
    assert st.pending.Keys == st'.pending.Keys + (st.pending.Keys - st'.pending.Keys);
    assert |st'.pending| == |st'.pending.Keys| && |st.pending| == |st.pending.Keys|;
  }

  /** A delayed task only needs its time to come. */
  lemma DelayedReached(x: Site, m: Moment, e: Envelope) returns (moves: seq<Move>)
    requires Sane(m) && Free(x, m.s) && e in m.s.store.delayed
    ensures IsSchedule(x, m, moves) && InHand(x, EndOfSchedule(x, m, moves).s, e.id)
  {
    var dt := NonNegative(m.s.store.delayed[e] - m.s.now);
    MoveStaysSane(x, m, Wait(dt));
    moves := PromoteUntil(x, Moved(x, m, Wait(dt)), e);
    Prefixed(x, m, Wait(dt), moves);
    moves := [Wait(dt)] + moves;
  }

  /** Pending messages, whoever holds them, are still pending. */
  ghost predicate StillPending(st: Store, st': Store) {
    forall t :: t in st.pending ==>
      t in st'.pending && t in st.stream && t in st'.stream && st'.stream[t] == st.stream[t]
  }

  /** Messages taken and settled one by one until the group is idle. */
  lemma {:induction false} Drain(x: Site, m: Moment) returns (moves: seq<Move>)
    requires Sane(m) && Free(x, m.s)
    ensures IsSchedule(x, m, moves)
    ensures var n := EndOfSchedule(x, m, moves);
            Sane(n) && Free(x, n.s) && Idle(n.s) && StillPending(m.s.store, n.s.store)
    decreases m.s.store.next - m.s.store.delivered
  {
    if t :| t in m.s.store.stream && t >= m.s.store.delivered {
      var first := TakeNext(x, m, t);
      var m1 := Moved(x, m, Take(first));
      var m2 := Moved(x, m1, Settle);
      TakenAndSettled(x, m, first);
      moves := Drain(x, m2);
      Prefixed(x, m1, Settle, moves);
      Prefixed(x, m, Take(first), [Settle] + moves);
      moves := [Take(first)] + ([Settle] + moves);
    } else {
      moves := [];
    }
  }

  /** A stale message is reached by reclaims: each full batch shrinks the pending set. */
  lemma {:induction false} ReclaimUntil(x: Site, m: Moment, t: nat) returns (moves: seq<Move>)
    requires Sane(m) && Free(x, m.s) && Idle(m.s) && Stale(x.c, m.s, t)
    ensures IsSchedule(x, m, moves) && InHand(x, EndOfSchedule(x, m, moves).s, m.s.store.stream[t].id)
    decreases |m.s.store.pending|
  {
    var id := m.s.store.stream[t].id;
    var m1 := Moved(x, m, Wait(RECLAIM_INTERVAL));
    MoveStaysSane(x, m, Wait(RECLAIM_INTERVAL));
    var tokens := StaleBatch(x.c, m1.s);
    var m2 := Moved(x, m1, ReclaimBatch(tokens));
    MoveStaysSane(x, m1, ReclaimBatch(tokens));
    ReclaimedAllMoves(m1.s.store, tokens, x.c.policy.backoff, m1.s.now);
    if t in tokens {
      var e :| e in m2.s.store.delayed && e.id == id;
      moves := DelayedReached(x, m2, e);
    } else {
      assert tokens != [] && tokens[0] in tokens;
      FewerPending(m1.s.store, m2.s.store, tokens);
      ReclaimedOthers(m1.s.store, tokens, x.c.policy.backoff, m1.s.now, t);
      moves := ReclaimUntil(x, m2, t);
    }
    Prefixed(x, m1, ReclaimBatch(tokens), moves);
    Prefixed(x, m, Wait(RECLAIM_INTERVAL), [ReclaimBatch(tokens)] + moves);
    moves := [Wait(RECLAIM_INTERVAL)] + ([ReclaimBatch(tokens)] + moves);
  }

  lemma {:induction false} ReclaimedOthers(st: Store, tokens: seq<nat>, backoff: int, now: real, t: nat)
    requires t !in tokens && t in st.stream && t in st.pending
    ensures var r := ReclaimedAll(st, tokens, backoff, now);
            t in r.stream && r.stream[t] == st.stream[t] && t in r.pending && r.pending[t] == st.pending[t]
    decreases |tokens|
  {
    if tokens != [] {
      ReclaimedOthers(if tokens[0] in st.stream then Reclaimed(st, tokens[0], backoff, now) else st,
                      tokens[1..], backoff, now, t);
    }
  }

  /** A message in the hands of a crashed worker: drain, wait its visibility out, reclaim. */
  lemma PendingReached(x: Site, m: Moment, t: nat) returns (moves: seq<Move>)
    requires Sane(m) && Free(x, m.s) && t in m.s.store.pending
    ensures IsSchedule(x, m, moves) && InHand(x, EndOfSchedule(x, m, moves).s, m.s.store.stream[t].id)
  {
    var drain := Drain(x, m);
    var n := EndOfSchedule(x, m, drain);
    var dt := NonNegative(x.c.visibility);
    MoveStaysSane(x, n, Wait(dt));
    moves := ReclaimUntil(x, Moved(x, n, Wait(dt)), t);
    Prefixed(x, n, Wait(dt), moves);
    Chained(x, m, drain, [Wait(dt)] + moves);
    moves := drain + ([Wait(dt)] + moves);
  }

  lemma FreeReaches(x: Site, m: Moment, id: string) returns (moves: seq<Move>)
    requires Sane(m) && Free(x, m.s) && HasCopy(m.s.store, id)
    ensures IsSchedule(x, m, moves) && InHand(x, EndOfSchedule(x, m, moves).s, id)
  {
    if t :| t in m.s.store.stream && m.s.store.stream[t].id == id {
      if t >= m.s.store.delivered {
        moves := TakeUntil(x, m, t);
      } else {
        moves := PendingReached(x, m, t);
      }
    } else {
      var e :| e in m.s.store.delayed && e.id == id;
      moves := DelayedReached(x, m, e);
    }
  }

  /**
   From every consistent state, any task with a copy can still be handed to any one worker that
   settles what it takes, however its handlers judge the tasks.
   */
  lemma NeverStuck(x: Site, m: Moment, id: string) returns (moves: seq<Move>)
    requires Sane(m) && HasCopy(m.s.store, id)
    ensures IsSchedule(x, m, moves) && InHand(x, EndOfSchedule(x, m, moves).s, id)
  {
    if InHand(x, m.s, id) {
      moves := [];
    } else if Free(x, m.s) {
      moves := FreeReaches(x, m, id);
    } else {
      MoveStaysSane(x, m, Settle);
      SettleLeaves(x, m);
      SettleKeeps(x, m, id);
      moves := FreeReaches(x, Moved(x, m, Settle), id);
      Prefixed(x, m, Settle, moves);
      moves := [Settle] + moves;
    }
  }

  // ------------------------------------------------------------------ schedules are runs

  /** Runs one behind the other. */
  lemma {:induction false} RunsJoin(c: Config, s: State, a: seq<Step>, b: seq<Step>)
    requires IsRun(c, s, a) && IsRun(c, EndOf(c, s, a), b)
    ensures IsRun(c, s, a + b) && EndOf(c, s, a + b) == EndOf(c, EndOf(c, s, a), b)
    decreases |a|
  {
    if a == [] {
      assert a + b == b;
    } else {
      assert (a + b)[0] == a[0] && (a + b)[1..] == a[1..] + b;
      RunsJoin(c, After(c, s, a[0]), a[1..], b);
    }
  }

  lemma OneStep(c: Config, s: State, step: Step) returns (steps: seq<Step>)
    requires Enabled(c, s, step)
    ensures IsRun(c, s, steps) && EndOf(c, s, steps) == After(c, s, step)
  {
    steps := [step];
    assert steps[1..] == [];
  }

  /** Every move of a schedule is a run of the queue's own steps. */
  lemma MoveIsARun(x: Site, m: Moment, move: Move) returns (steps: seq<Step>)
    requires Sane(m) && Allowed(x, m, move)
    ensures IsRun(x.c, m.s, steps) && EndOf(x.c, m.s, steps) == Moved(x, m, move).s
  {
    match move
    case Wait(dt) => steps := OneStep(x.c, m.s, Tick(dt));
    case PromoteBatch(due) =>
      var posted := seq(|due|, i => true);
      assert forall i :: 0 <= i < |due| ==> due[i] in due && Due(m.s, due[i]);
      PromotionIsARun(x.c, m.s, due, posted);
      AllPosted(m.s.store, due, posted, m.s.now);
      steps := PromoteSteps(due, posted);
    case ReclaimBatch(tokens) =>
      assert forall i :: 0 <= i < |tokens| ==> tokens[i] in tokens && Stale(x.c, m.s, tokens[i]);
      ReclaimIsARun(x.c, m.s, tokens);
      steps := ReclaimSteps(tokens);
    case Take(t) => steps := OneStep(x.c, m.s, Reserve(x.worker, t));
    case Settle => steps := OneStep(x.c, m.s, Finish(x.worker, x.judge(m.s.hands[x.worker].env)));
  }

  /** So is every schedule: what it reaches, the queue reaches. */
  lemma {:induction false} ScheduleIsARun(x: Site, m: Moment, moves: seq<Move>) returns (steps: seq<Step>)
    requires Sane(m) && IsSchedule(x, m, moves)
    ensures IsRun(x.c, m.s, steps) && EndOf(x.c, m.s, steps) == EndOfSchedule(x, m, moves).s
    decreases |moves|
  {
    if moves == [] {
      steps := [];
    } else {
      var first := MoveIsARun(x, m, moves[0]);
      MoveStaysSane(x, m, moves[0]);
      var rest := ScheduleIsARun(x, Moved(x, m, moves[0]), moves[1..]);
      RunsJoin(x.c, m.s, first, rest);
      steps := first + rest;
    }
  }

  /** Batches in words: how often, how many, and which. */
  lemma BatchesInWords(x: Site, m: Moment, due: seq<Envelope>, tokens: seq<nat>)
    requires Consistent(m.s)
    ensures Allowed(x, m, PromoteBatch(due)) ==>
              && m.s.now >= m.lastPromote + 1.0 && |due| <= 100
              && (forall e :: e in due ==> e in m.s.store.delayed && m.s.store.delayed[e] <= m.s.now)
              && (|due| < 100 ==> forall e :: e in m.s.store.delayed && m.s.store.delayed[e] <= m.s.now ==> e in due)
              && Moved(x, m, PromoteBatch(due)).lastPromote == m.s.now
    ensures Allowed(x, m, ReclaimBatch(tokens)) ==>
              && m.s.now >= m.lastReclaim + 30.0 && |tokens| <= 10
              && (forall t :: t in m.s.store.stream ==> t < m.s.store.delivered)
              && (forall t :: t in tokens ==> Enabled(x.c, m.s, Reclaim(t)))
              && (|tokens| < 10 ==> forall t :: Enabled(x.c, m.s, Reclaim(t)) ==> t in tokens)
              && Moved(x, m, ReclaimBatch(tokens)).lastReclaim == m.s.now
  {
  }

  /** Such batches exist whenever the intervals are over. */
  lemma BatchesExist(x: Site, m: Moment) returns (due: seq<Envelope>, tokens: seq<nat>)
    requires Sane(m) && Free(x, m.s)
    ensures m.s.now >= m.lastPromote + 1.0 ==> Allowed(x, m, PromoteBatch(due))
    ensures m.s.now >= m.lastReclaim + 30.0 && Idle(m.s) ==> Allowed(x, m, ReclaimBatch(tokens))
  {
    due := DueBatch(m.s);
    tokens := StaleBatch(x.c, m.s);
  }
}
