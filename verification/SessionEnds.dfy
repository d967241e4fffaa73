/** What issuing, redeeming and revoking a refresh token amount to, and when a session is over for good. */
module SessionEnds {
  import opened Common
  import opened RedisCache
  import opened RefreshTokens

  /** The two steps of one operation: the command to Redis, and the fallback to memory if it is needed. */
  function Whole(s: State, step: Step): State
    requires (step.Issue? || step.Redeem? || step.Revoke?) && Enabled(s, step)
  {
    var s1 := After(s, step);
    if step.t in s1.pending then After(s1, Fallback(step.t)) else s1
  }

  /** The command reached Redis and took effect, whatever it reported. */
  predicate Applied(s: State, p: Process, ping: bool, command: Command) {
    Sent(s, p, ping) && (command == Answered || command == FailedApplied)
  }

  /** A new token goes to Redis, or to the process's own memory when Redis does not confirm it. */
  lemma IssueStores(s: State, t: Thread, p: Process, token: Token, ping: bool, command: Command)
    requires Enabled(s, Issue(t, p, token, ping, command)) && token !in s.redis && token !in MemoryOf(s, p)
    ensures var end := Whole(s, Issue(t, p, token, ping, command));
            && (token in end.redis <==> Applied(s, p, ping, command))
            && (token in MemoryOf(end, p) <==> !(Sent(s, p, ping) && command == Answered))
            && token in end.issued && end.redeemed == s.redeemed && end.pending == s.pending
  {
  }

  /** A token is redeemed if Redis hands it over, or else if the process has it in memory. */
  lemma RedeemsIff(s: State, t: Thread, p: Process, token: Token, ping: bool, command: Command)
    requires Enabled(s, Redeem(t, p, token, ping, command))
    ensures var end := Whole(s, Redeem(t, p, token, ping, command));
            var fromRedis := Sent(s, p, ping) && command == Answered && token in s.redis;
            && end.redeemed == (if fromRedis || token in MemoryOf(s, p) then s.redeemed + multiset{token} else s.redeemed)
            && (token in end.redis <==> token in s.redis && !Applied(s, p, ping, command))
            && (token in MemoryOf(end, p) <==> token in MemoryOf(s, p) && fromRedis)
            && end.pending == s.pending
  {
  }

  /** Logging out removes the token from Redis if the command takes effect, and from memory in any case. */
  lemma RevokeRemoves(s: State, t: Thread, p: Process, token: Token, ping: bool, command: Command, place: Place)
    requires Enabled(s, Revoke(t, p, token, ping, command))
    ensures var end := Whole(s, Revoke(t, p, token, ping, command));
            && (At(end, token, place) <==>
                  At(s, token, place) && place != InMemory(p) && !(place.InRedis? && Applied(s, p, ping, command)))
            && end.redeemed == s.redeemed && end.pending == s.pending
  {
  }

  // ------------------------------------------------------------------ what happens by itself

  /** Expiry takes one copy, at any time, and leaves all else in place. */
  lemma ExpiryInWords(s: State, p: Process, token: Token, other: Token, place: Place)
    ensures Enabled(s, ExpireInRedis(token)) && Enabled(s, ExpireInMemory(p, token))
    ensures At(After(s, ExpireInRedis(token)), other, place) <==>
            At(s, other, place) && !(other == token && place == InRedis)
    ensures At(After(s, ExpireInMemory(p, token)), other, place) <==>
            At(s, other, place) && !(other == token && place == InMemory(p))
  {
  }

  /** A restart takes all the process knows, and what its threads had still to store. */
  lemma RestartInWords(s: State, p: Process, other: Token, place: Place)
    ensures Enabled(s, Restart(p))
    ensures var end := After(s, Restart(p));
            && (At(end, other, place) <==>
                  At(s, other, place) && place != InMemory(p) && (place.InFlight? ==> s.pending[place.t].p != p))
            && BreakerOf(end, p) == Breaker(0.0, false)
            && (forall t :: t in end.pending <==> t in s.pending && s.pending[t].p != p)
  {
  }

  /** Time passes by any amount, and does nothing else. */
  lemma TimePasses(s: State, dt: real)
    ensures Enabled(s, Tick(dt)) <==> dt >= 0.0
    ensures dt >= 0.0 ==> After(s, Tick(dt)) == s.(now := s.now + dt)
  {
  }

  /** Somebody gives the token up in this step, or it expires, or it goes down with its process. */
  ghost predicate GivenUp(s: State, step: Step, token: Token)
    requires Enabled(s, step)
  {
    match step
    case Issue(_, _, _, _, _) => false
    case Redeem(_, p, x, ping, command) => x == token && Sent(s, p, ping) && command == FailedApplied
    case Revoke(_, _, x, _, _) => x == token
    case Fallback(t) => s.pending[t] == Revoking(s.pending[t].p, token)
    case ExpireInRedis(x) => x == token
    case ExpireInMemory(_, x) => x == token
    case Restart(p) =>
      token in MemoryOf(s, p) || exists t :: t in s.pending && s.pending[t].p == p && s.pending[t].token == token
    case Tick(_) => false
  }

  /** The dropped tokens are exactly those somebody gave up. */
  lemma DroppedIff(s: State, step: Step, token: Token)
    requires Enabled(s, step)
    ensures token in After(s, step).dropped <==> token in s.dropped || GivenUp(s, step, token)
  {
  }

  /** A copy leaves its place by being stored, by a redemption or by being given up, and never otherwise. */
  lemma NothingElseVanishes(s: State, step: Step, token: Token, place: Place)
    requires Enabled(s, step) && At(s, token, place) && !At(After(s, step), token, place)
    ensures || GivenUp(s, step, token)
            || After(s, step).redeemed[token] == s.redeemed[token] + 1
            || (place.InFlight? && At(After(s, step), token, InMemory(s.pending[place.t].p)))
  {
  }

  // ------------------------------------------------------------------ never again

  ghost predicate Gone(s: State, token: Token) {
    token in s.issued && forall place :: !At(s, token, place)
  }

  lemma StaysGone(s: State, step: Step, token: Token)
    requires Gone(s, token) && Enabled(s, step)
    ensures Gone(After(s, step), token) && After(s, step).redeemed[token] == s.redeemed[token]
  {
    var n := After(s, step);
    forall place ensures !At(n, token, place) {
      if At(n, token, place) {
        CopiesMove(s, step, token, place);
        if step.Fallback? && s.pending[step.t] == Storing(s.pending[step.t].p, token) {
          assert At(s, token, InFlight(step.t));
        }
      }
    }
    if n.redeemed[token] != s.redeemed[token] {
      var from := RedeemedFrom(s, step, token);
    }
  }

  lemma {:induction false} GoneForGood(s: State, steps: seq<Step>, token: Token)
    requires Gone(s, token) && IsRun(s, steps)
    ensures Gone(EndOf(s, steps), token) && EndOf(s, steps).redeemed[token] == s.redeemed[token]
    decreases |steps|
  {
    if steps != [] {
      StaysGone(s, steps[0], token);
      GoneForGood(After(s, steps[0]), steps[1..], token);
    }
  }

  /** No continuation redeems the token once more. */
  ghost predicate OverForGood(s: State, token: Token) {
    forall steps :: IsRun(s, steps) ==> EndOf(s, steps).redeemed[token] == s.redeemed[token]
  }

  lemma {:induction false} Unused(used: set<nat>) returns (n: nat)
    ensures n !in used && forall m :: m in used ==> m < n
    decreases used
  {
    if used == {} {
      n := 0;
    } else {
      var m :| m in used;
      var above := Unused(used - {m});
      n := if above > m then above else m + 1;
      assert forall x :: x in used ==> x == m || x in used - {m};
    }
  }

  /** A redemption after steps that leave the count alone. */
  lemma Redeemable(s: State, token: Token, p: Process) returns (steps: seq<Step>)
    requires token in MemoryOf(s, p) || (token in s.redis && BreakerOf(s, p) == CLOSED && s.now >= 0.0)
    ensures IsRun(s, steps) && EndOf(s, steps).redeemed[token] == s.redeemed[token] + 1
  {
    var t := Unused(s.pending.Keys);
    var step := Redeem(t, p, token, true, Answered);
    var s1 := After(s, step);
    RedeemsIff(s, t, p, token, true, Answered);
    if t in s1.pending {
      steps := Prepended(s1, Fallback(t), []);
      steps := Prepended(s, step, steps);
    } else {
      steps := Prepended(s, step, []);
    }
  }

  /** A session is over for good if and only if no copy of its token is left anywhere. */
  lemma OverIffGone(s: State, token: Token)
    requires token in s.issued && s.now >= 0.0
    ensures OverForGood(s, token) <==> forall place :: !At(s, token, place)
  {
    if forall place :: !At(s, token, place) {
      forall steps | IsRun(s, steps) ensures EndOf(s, steps).redeemed[token] == s.redeemed[token] {
        GoneForGood(s, steps, token);
      }
    } else {
      var place :| At(s, token, place);
      var steps := SomeRedemption(s, token, place);
    }
  }

  lemma SomeRedemption(s: State, token: Token, place: Place) returns (steps: seq<Step>)
    requires At(s, token, place) && s.now >= 0.0
    ensures IsRun(s, steps) && EndOf(s, steps).redeemed[token] == s.redeemed[token] + 1
  {
    match place
    case InRedis =>
      var p := Unused(s.breakers.Keys);
      steps := Redeemable(s, token, p);
    case InMemory(p) => steps := Redeemable(s, token, p);
    case InFlight(t) =>
      var p := s.pending[t].p;
      steps := Redeemable(After(s, Fallback(t)), token, p);
      steps := Prepended(s, Fallback(t), steps);
  }

  /**
   Logging out ends the session for good if and only if the delete takes effect in Redis, where
   the token was there, and no other process's memory and no thread still has it.
   */
  lemma LogoutIsFinalIff(s: State, t: Thread, p: Process, token: Token, ping: bool, command: Command)
    requires Enabled(s, Revoke(t, p, token, ping, command)) && token in s.issued && s.now >= 0.0
    ensures OverForGood(Whole(s, Revoke(t, p, token, ping, command)), token) <==>
            && (token in s.redis ==> Applied(s, p, ping, command))
            && (forall q :: q != p ==> token !in MemoryOf(s, q))
            && (forall u :: u in s.pending && s.pending[u].Storing? ==> s.pending[u].token != token)
  {
    var end := Whole(s, Revoke(t, p, token, ping, command));
    OverIffGone(end, token);
    forall place ensures At(end, token, place) <==>
      At(s, token, place) && place != InMemory(p) && !(place.InRedis? && Applied(s, p, ping, command))
    {
      RevokeRemoves(s, t, p, token, ping, command, place);
    }
    OnlyOthers(s, end, p, token, Applied(s, p, ping, command));
  }

  lemma OnlyOthers(s: State, end: State, p: Process, token: Token, applied: bool)
    requires forall place :: At(end, token, place) <==>
               At(s, token, place) && place != InMemory(p) && !(place.InRedis? && applied)
    ensures (forall place :: !At(end, token, place)) <==>
            && (token in s.redis ==> applied)
            && (forall q :: q != p ==> token !in MemoryOf(s, q))
            && (forall u :: u in s.pending && s.pending[u].Storing? ==> s.pending[u].token != token)
  {
    if forall place :: !At(end, token, place) {
      assert !At(end, token, InRedis);
      forall q | q != p ensures token !in MemoryOf(s, q) {
        assert !At(end, token, InMemory(q));
      }
      forall u | u in s.pending && s.pending[u].Storing? ensures s.pending[u].token != token {
        assert !At(end, token, InFlight(u));
      }
    }
  }

  // ------------------------------------------------------------------ a failure is remembered

  /** The process's breaker holds it out until `until`. */
  ghost predicate HeldOut(s: State, p: Process, until: real) {
    p in s.breakers && s.breakers[p].until >= until
  }

  lemma StepHeldOut(s: State, step: Step, p: Process, until: real)
    requires HeldOut(s, p, until) && Enabled(s, step) && s.now < until && step != Restart(p)
    ensures HeldOut(After(s, step), p, until)
  {
  }

  lemma {:induction false} RunHeldOut(s: State, steps: seq<Step>, p: Process, until: real)
    requires HeldOut(s, p, until) && IsRun(s, steps) && Restart(p) !in steps && EndOf(s, steps).now < until
    ensures HeldOut(EndOf(s, steps), p, until) && s.now <= EndOf(s, steps).now
    decreases |steps|
  {
    ClockGrows(s, steps);
    if steps != [] {
      StepHeldOut(s, steps[0], p, until);
      assert Restart(p) !in steps[1..];
      RunHeldOut(After(s, steps[0]), steps[1..], p, until);
    }
  }

  lemma {:induction false} ClockGrows(s: State, steps: seq<Step>)
    requires IsRun(s, steps)
    ensures s.now <= EndOf(s, steps).now
    decreases |steps|
  {
    if steps != [] {
      ClockGrows(After(s, steps[0]), steps[1..]);
    }
  }

  predicate Commands(step: Step) {
    step.Issue? || step.Redeem? || step.Revoke?
  }

  /** After a failed command the process sends Redis nothing for thirty seconds, unless it is restarted. */
  lemma FailureIsRemembered(s: State, step: Step, steps: seq<Step>, ping: bool)
    requires Commands(step) && Enabled(s, step) && Sent(s, step.p, step.ping) && step.command != Answered
    requires IsRun(After(s, step), steps) && Restart(step.p) !in steps
    requires EndOf(After(s, step), steps).now < s.now + 30.0
    ensures !Sent(EndOf(After(s, step), steps), step.p, ping)
  {
    RunHeldOut(After(s, step), steps, step.p, s.now + 30.0);
  }
}
