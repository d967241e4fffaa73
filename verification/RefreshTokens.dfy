/**
 Refresh tokens across processes: one shared Redis, a private memory fallback in each process,
 and threads that may be interrupted between the two. A token is redeemed by reading and
 deleting it, from Redis first, from the process's memory on a miss.
 */
module RefreshTokens {
  import opened RedisCache

  type Token = string
  type Process = nat
  type Thread = nat

  /** What a thread still has to do in its process's memory. */
  datatype Pending =
    | Storing(p: Process, token: Token)
    | Redeeming(p: Process, token: Token)
    | Revoking(p: Process, token: Token)

  datatype State = State(
    redis: set<Token>, memory: map<Process, set<Token>>, breakers: map<Process, Breaker>,
    pending: map<Thread, Pending>, now: real,
    issued: set<Token>, redeemed: multiset<Token>, dropped: set<Token>)

  datatype Step =
    | Issue(t: Thread, p: Process, token: Token, ping: bool, command: Command)
    | Redeem(t: Thread, p: Process, token: Token, ping: bool, command: Command)
    | Revoke(t: Thread, p: Process, token: Token, ping: bool, command: Command)
    | Fallback(t: Thread)
    | ExpireInRedis(token: Token)
    | ExpireInMemory(p: Process, token: Token)
    | Restart(p: Process)
    | Tick(dt: real)

  const START := State({}, map[], map[], map[], 0.0, {}, multiset{}, {})

  function MemoryOf(s: State, p: Process): set<Token> {
    if p in s.memory then s.memory[p] else {}
  }

  function BreakerOf(s: State, p: Process): Breaker {
    if p in s.breakers then s.breakers[p] else CLOSED
  }

  predicate Enabled(s: State, step: Step) {
    match step
    case Issue(t, _, token, _, _) => t !in s.pending && token !in s.issued
    case Redeem(t, _, _, _, _) => t !in s.pending
    case Revoke(t, _, _, _, _) => t !in s.pending
    case Fallback(t) => t in s.pending
    case Tick(dt) => dt >= 0.0
    case _ => true
  }

  /** Whether the step's command is sent, and whether it takes effect on the server. */
  predicate Sent(s: State, p: Process, ping: bool) {
    Checked(BreakerOf(s, p), s.now, ping).1
  }

  function After(s: State, step: Step): State
    requires Enabled(s, step)
  {
    match step
    case Issue(t, p, token, ping, command) =>
      var sent := Sent(s, p, ping);
      s.(breakers := s.breakers[p := Used(BreakerOf(s, p), s.now, ping, command)],
         issued := s.issued + {token},
         redis := if sent && !command.FailedUnapplied? then s.redis + {token} else s.redis,
         pending := if sent && command.Answered? then s.pending else s.pending[t := Storing(p, token)])
    case Redeem(t, p, token, ping, command) =>
      var sent := Sent(s, p, ping);
      var hit := sent && command.Answered? && token in s.redis;
      s.(breakers := s.breakers[p := Used(BreakerOf(s, p), s.now, ping, command)],
         redis := if sent && !command.FailedUnapplied? then s.redis - {token} else s.redis,
         redeemed := if hit then s.redeemed + multiset{token} else s.redeemed,
         dropped := if sent && command.FailedApplied? then s.dropped + {token} else s.dropped,
         pending := if hit then s.pending else s.pending[t := Redeeming(p, token)])
    case Revoke(t, p, token, ping, command) =>
      var sent := Sent(s, p, ping);
      s.(breakers := s.breakers[p := Used(BreakerOf(s, p), s.now, ping, command)],
         redis := if sent && !command.FailedUnapplied? then s.redis - {token} else s.redis,
         dropped := s.dropped + {token},
         pending := s.pending[t := Revoking(p, token)])
    case Fallback(t) => Completed(s.(pending := s.pending - {t}), s.pending[t])
    case ExpireInRedis(token) => s.(redis := s.redis - {token}, dropped := s.dropped + {token})
    case ExpireInMemory(p, token) =>
      s.(memory := s.memory[p := MemoryOf(s, p) - {token}], dropped := s.dropped + {token})
    case Restart(p) =>
      s.(memory := s.memory[p := {}], breakers := s.breakers[p := CLOSED],
         pending := map t | t in s.pending && s.pending[t].p != p :: s.pending[t],
         dropped := s.dropped + MemoryOf(s, p) + (set t | t in s.pending && s.pending[t].p == p :: s.pending[t].token))
    case Tick(dt) => s.(now := s.now + dt)
  }

  function Completed(s: State, work: Pending): State {
    var mine := MemoryOf(s, work.p);
    match work
    case Storing(p, token) => s.(memory := s.memory[p := mine + {token}])
    case Redeeming(p, token) =>
      if token in mine then s.(memory := s.memory[p := mine - {token}], redeemed := s.redeemed + multiset{token}) else s
    case Revoking(p, token) => s.(memory := s.memory[p := mine - {token}], dropped := s.dropped + {token})
  }

  ghost predicate IsRun(s: State, steps: seq<Step>)
    decreases |steps|
  {
    steps != [] ==> Enabled(s, steps[0]) && IsRun(After(s, steps[0]), steps[1..])
  }

  ghost function EndOf(s: State, steps: seq<Step>): State
    requires IsRun(s, steps)
    decreases |steps|
  {
    if steps == [] then s else EndOf(After(s, steps[0]), steps[1..])
  }

  // ------------------------------------------------------------------ at most one copy

  datatype Place = InRedis | InMemory(p: Process) | InFlight(t: Thread)

  ghost predicate At(s: State, token: Token, place: Place) {
    match place
    case InRedis => token in s.redis
    case InMemory(p) => token in MemoryOf(s, p)
    case InFlight(t) => t in s.pending && s.pending[t].Storing? && s.pending[t].token == token
  }

  ghost predicate OneCopy(s: State, token: Token) {
    forall a, b :: At(s, token, a) && At(s, token, b) ==> a == b
  }

  ghost predicate SpentIsGone(s: State, token: Token) {
    && (forall a :: At(s, token, a) ==> token in s.issued && token !in s.redeemed)
    && (token in s.redeemed ==> token in s.issued && s.redeemed[token] == 1)
  }

  /** Everything single use of one token rests on. */
  ghost predicate Sound(s: State, token: Token) {
    OneCopy(s, token) && SpentIsGone(s, token)
  }

  /** The write that issues the token reports failure though it took effect. */
  predicate Dishonest(s: State, step: Step, token: Token) {
    step.Issue? && step.token == token && Sent(s, step.p, step.ping) && step.command.FailedApplied?
  }

  /** A step moves a token at most from one place to another; only a fresh one appears. */
  lemma CopiesMove(s: State, step: Step, token: Token, place: Place)
    requires Enabled(s, step) && !Dishonest(s, step, token) && At(After(s, step), token, place)
    ensures if step.Issue? && step.token == token
            then At(s, token, place) || place in {InRedis, InFlight(step.t)}
            else if step.Fallback? && s.pending[step.t] == Storing(s.pending[step.t].p, token)
            then place != InFlight(step.t) && (At(s, token, place) || place == InMemory(s.pending[step.t].p))
            else At(s, token, place)
  {
  }

  /** An issued token goes to Redis or stays with its thread, never both. */
  lemma IssuePlaces(s: State, step: Step)
    requires step.Issue? && Enabled(s, step) && !Dishonest(s, step, step.token) && step.token !in s.redis
    ensures !(At(After(s, step), step.token, InRedis) && At(After(s, step), step.token, InFlight(step.t)))
  {
  }

  lemma StepOneCopy(s: State, step: Step, token: Token)
    requires Enabled(s, step) && !Dishonest(s, step, token) && Sound(s, token)
    ensures OneCopy(After(s, step), token)
  {
    forall a, b | At(After(s, step), token, a) && At(After(s, step), token, b) ensures a == b {
      CopiesMove(s, step, token, a);
      CopiesMove(s, step, token, b);
      if step.Issue? && step.token == token {
        assert !At(s, token, a) && !At(s, token, b) && !At(s, token, InRedis);
        IssuePlaces(s, step);
      } else if step.Fallback? && s.pending[step.t] == Storing(s.pending[step.t].p, token) {
        assert At(s, token, InFlight(step.t));
      }
    }
  }

  /** Only a copy that is then gone makes a redemption succeed. */
  lemma RedeemedFrom(s: State, step: Step, token: Token) returns (place: Place)
    requires Enabled(s, step) && After(s, step).redeemed[token] != s.redeemed[token]
    ensures At(s, token, place) && !At(After(s, step), token, place) && !place.InFlight?
    ensures After(s, step).redeemed[token] == s.redeemed[token] + 1
    ensures !step.Issue? && (step.Fallback? ==> s.pending[step.t].Redeeming?)
  {
    place := if step.Redeem? then InRedis else InMemory(s.pending[step.t].p);
  }

  lemma StepSpentIsGone(s: State, step: Step, token: Token)
    requires Enabled(s, step) && !Dishonest(s, step, token) && Sound(s, token)
    ensures SpentIsGone(After(s, step), token)
  {
    var n := After(s, step);
    forall a | At(n, token, a) ensures token in n.issued && token !in n.redeemed {
      CopiesMove(s, step, token, a);
      if step.Fallback? && s.pending[step.t] == Storing(s.pending[step.t].p, token) {
        assert At(s, token, InFlight(step.t));
      }
      if n.redeemed[token] != s.redeemed[token] {
        var from := RedeemedFrom(s, step, token);
      }
    }
    if n.redeemed[token] != s.redeemed[token] {
      var from := RedeemedFrom(s, step, token);
    }
  }

  /** The token's own issue, if the run contains it, is honest; other tokens' writes may not be. */
  ghost predicate IssuedHonestly(s: State, steps: seq<Step>, token: Token)
    requires IsRun(s, steps)
    decreases |steps|
  {
    steps != [] ==> !Dishonest(s, steps[0], token) && IssuedHonestly(After(s, steps[0]), steps[1..], token)
  }

  /** Through every outage, cooldown and restart, a token whose own issue is honest is redeemed once at most. */
  lemma {:induction false} SingleUse(s: State, steps: seq<Step>, token: Token)
    requires Sound(s, token) && IsRun(s, steps) && IssuedHonestly(s, steps, token)
    ensures Sound(EndOf(s, steps), token) && EndOf(s, steps).redeemed[token] <= 1
    decreases |steps|
  {
    if steps != [] {
      StepOneCopy(s, steps[0], token);
      StepSpentIsGone(s, steps[0], token);
      SingleUse(After(s, steps[0]), steps[1..], token);
    }
  }

  lemma StartsClean(token: Token)
    ensures Sound(START, token)
  {
  }

  lemma {:induction false} IssuedForGood(s: State, steps: seq<Step>, token: Token)
    requires IsRun(s, steps) && token in s.issued
    ensures token in EndOf(s, steps).issued && IssuedHonestly(s, steps, token)
    decreases |steps|
  {
    if steps != [] {
      IssuedForGood(After(s, steps[0]), steps[1..], token);
    }
  }

  lemma {:induction false} UnissuedIsHonest(s: State, steps: seq<Step>, token: Token)
    requires IsRun(s, steps) && token !in EndOf(s, steps).issued
    ensures IssuedHonestly(s, steps, token)
    decreases |steps|
  {
    if steps != [] {
      if steps[0].Issue? && steps[0].token == token {
        IssuedForGood(After(s, steps[0]), steps[1..], token);
      }
      UnissuedIsHonest(After(s, steps[0]), steps[1..], token);
    }
  }

  // ------------------------------------------------------------------ when Redis lies, and when it never fails

  lemma Prepended(s: State, step: Step, rest: seq<Step>) returns (steps: seq<Step>)
    requires Enabled(s, step) && IsRun(After(s, step), rest)
    ensures IsRun(s, steps) && EndOf(s, steps) == EndOf(After(s, step), rest)
  {
    steps := [step] + rest;
    assert steps[1..] == rest;
  }

  /** Behind a write that took effect though it reported failure, the token can be redeemed twice. */
  lemma DishonestWriteBreaksSingleUse(s: State, step: Step) returns (steps: seq<Step>)
    requires step.Issue? && Enabled(s, step) && Dishonest(s, step, step.token) && Sound(s, step.token)
    ensures IsRun(After(s, step), steps) && EndOf(After(s, step), steps).redeemed[step.token] == 2
  {
    var t, p, token := step.t, step.p, step.token;
    var s0 := After(s, step);
    assert s0.pending[t] == Storing(p, token) && token in s0.redis && s0.redeemed[token] == 0;
    assert BreakerOf(s0, p) == Tripped(s0.now);
    var first := Redeem(t, p, token, true, Answered);
    var s1 := After(s0, Fallback(t));
    assert token in MemoryOf(s1, p) && t !in s1.pending && BreakerOf(s1, p) == Tripped(s1.now);
    var s2 := After(s1, first);
    assert s2.pending[t] == Redeeming(p, token) && token in MemoryOf(s2, p) && token in s2.redis;
    var s3 := After(s2, Fallback(t));
    assert s3.redeemed[token] == 1 && BreakerOf(s3, p) == Tripped(s3.now);
    var s4 := After(s3, Tick(COOLDOWN));
    var s5 := After(s4, first);
    assert s5.redeemed[token] == 2;
    steps := Prepended(s4, first, []);
    steps := Prepended(s3, Tick(COOLDOWN), steps);
    steps := Prepended(s2, Fallback(t), steps);
    steps := Prepended(s1, first, steps);
    steps := Prepended(s0, Fallback(t), steps);
  }

  ghost predicate NeverTwice(s: State, token: Token) {
    forall steps :: IsRun(s, steps) ==> EndOf(s, steps).redeemed[token] <= 1
  }

  /**
   After any run, a token issued now is redeemed at most once in every continuation if and only
   if the write that issues it does not take effect while reporting failure.
   */
  lemma SingleUseIff(before: seq<Step>, step: Step)
    requires IsRun(START, before) && step.Issue? && Enabled(EndOf(START, before), step)
    ensures var s := EndOf(START, before);
            NeverTwice(After(s, step), step.token) <==> !Dishonest(s, step, step.token)
  {
    var s, token := EndOf(START, before), step.token;
    StartsClean(token);
    UnissuedIsHonest(START, before, token);
    SingleUse(START, before, token);
    if Dishonest(s, step, token) {
      var steps := DishonestWriteBreaksSingleUse(s, step);
    } else {
      StepOneCopy(s, step, token);
      StepSpentIsGone(s, step, token);
      forall steps | IsRun(After(s, step), steps) ensures EndOf(After(s, step), steps).redeemed[token] <= 1 {
        IssuedForGood(After(s, step), steps, token);
        SingleUse(After(s, step), steps, token);
      }
    }
  }

  predicate NoOutage(step: Step) {
    (step.Issue? || step.Redeem? || step.Revoke?) ==> step.command.Answered?
  }

  /** Every token not yet redeemed or dropped is where every process can redeem it. */
  ghost predicate AllShared(s: State) {
    && (forall p :: p in s.breakers ==> s.breakers[p] == CLOSED)
    && (forall t :: t in s.pending ==> !s.pending[t].Storing?)
    && (forall token :: token in s.issued ==> token in s.redis || token in s.redeemed || token in s.dropped)
    && s.now >= 0.0
  }

  lemma {:induction false} NoOutageNoLoss(s: State, steps: seq<Step>)
    requires AllShared(s) && IsRun(s, steps)
    requires forall step :: step in steps ==> NoOutage(step)
    ensures AllShared(EndOf(s, steps))
    decreases |steps|
  {
    if steps != [] {
      assert steps[0] in steps;
      StepShared(s, steps[0]);
      NoOutageNoLoss(After(s, steps[0]), steps[1..]);
    }
  }

  lemma StepShared(s: State, step: Step)
    requires AllShared(s) && Enabled(s, step) && NoOutage(step)
    ensures AllShared(After(s, step))
  {
    StepStaysClosed(s, step);
    StepStoresNothingAside(s, step);
  }

  lemma StepStaysClosed(s: State, step: Step)
    requires AllShared(s) && Enabled(s, step) && NoOutage(step)
    ensures forall p :: p in After(s, step).breakers ==> After(s, step).breakers[p] == CLOSED
  {
  }

  lemma StepStoresNothingAside(s: State, step: Step)
    requires AllShared(s) && Enabled(s, step) && NoOutage(step)
    ensures forall t :: t in After(s, step).pending ==> !After(s, step).pending[t].Storing?
  {
  }
}
