/**
 The shared cache's client: a failed operation starts a cooldown during which Redis is left
 alone, and the first operation behind the cooldown probes it first. What the network does
 is an outcome of each operation.
 */
module RedisCache {
  const COOLDOWN := 30.0

  datatype Breaker = Breaker(until: real, needRecovery: bool)

  const CLOSED := Breaker(0.0, false)

  /** What the server does with one command: nothing comes back from a failed one. */
  datatype Command = Answered | FailedUnapplied | FailedApplied

  function Tripped(now: real): Breaker {
    Breaker(now + COOLDOWN, true)
  }

  /** The availability check in front of every operation; `ping` is what a probe would find. */
  function Checked(b: Breaker, now: real, ping: bool): (Breaker, bool) {
    if now < b.until then (b, false)
    else if !b.needRecovery then (b, true)
    else if ping then (CLOSED, true)
    else (Tripped(now), false)
  }

  /** The breaker behind an operation whose command, if sent, ends with `command`. */
  function Used(b: Breaker, now: real, ping: bool, command: Command): Breaker {
    var (b', up) := Checked(b, now, ping);
    if up && !command.Answered? then Tripped(now) else b'
  }

  /** Whether the operation contacts the server at all, by a probe or a command. */
  predicate Contacts(b: Breaker, now: real) {
    now >= b.until
  }

  datatype Call = Call(now: real, ping: bool, command: Command)

  /** The breaker after a run of operations. */
  function UsedAll(b: Breaker, calls: seq<Call>): Breaker
    decreases |calls|
  {
    if calls == [] then b else UsedAll(Used(b, calls[0].now, calls[0].ping, calls[0].command), calls[1..])
  }

  /** Down for thirty seconds behind a failure; then a probe decides, and its success ends the matter. */
  lemma AvailabilityInWords(failed: real, now: real, ping: bool)
    ensures now < failed + 30.0 ==> Checked(Tripped(failed), now, ping) == (Tripped(failed), false)
    ensures now >= failed + 30.0 && ping ==> Checked(Tripped(failed), now, ping) == (CLOSED, true)
    ensures now >= failed + 30.0 && !ping ==> Checked(Tripped(failed), now, ping) == (Tripped(now), false)
    ensures now >= 0.0 ==> Checked(CLOSED, now, ping) == (CLOSED, true)
    ensures Tripped(failed).until == failed + 30.0
  {
  }

  /** A command that fails starts the cooldown; one that is answered, or not sent, does not. */
  lemma OutcomeInWords(b: Breaker, now: real, ping: bool, command: Command)
    ensures var (checked, up) := Checked(b, now, ping);
            Used(b, now, ping, command) == if up && command != Answered then Tripped(now) else checked
  {
  }

  /** An operation contacts the server exactly when a server in order would serve it; else nothing changes. */
  lemma ContactsIff(b: Breaker, now: real, ping: bool, command: Command)
    ensures Contacts(b, now) <==> Checked(b, now, true).1
    ensures !Contacts(b, now) ==> Checked(b, now, ping) == (b, false) && Used(b, now, ping, command) == b
  {
  }

  /** Whatever failed last, nothing contacts the server until the cooldown behind it is over. */
  lemma {:induction false} CooldownHolds(b: Breaker, calls: seq<Call>, failed: real, k: nat)
    requires b == Tripped(failed) && k < |calls|
    requires forall i :: 0 <= i <= k ==> failed <= calls[i].now < failed + COOLDOWN
    ensures !Contacts(UsedAll(b, calls[..k]), calls[k].now) && UsedAll(b, calls[..k]) == b
    decreases k
  {
    if k > 0 {
      assert calls[..k][1..] == calls[1..][..k - 1];
      CooldownHolds(Used(b, calls[0].now, calls[0].ping, calls[0].command), calls[1..], failed, k - 1);
    }
  }

  // ------------------------------------------------------------------ overlapping operations

  /** The parts of an operation: its check, the end of the probe if it needed one, and its command. */
  datatype Part =
    | CheckAt(thread: nat, now: real)
    | ProbeEnds(thread: nat, now: real, answered: bool)
    | CommandAt(thread: nat, now: real, command: Command)

  /** The breaker, the threads that wait for a probe, and those that passed and have yet to send. */
  datatype Shared = Shared(b: Breaker, probing: set<nat>, passed: set<nat>)

  function Advanced(s: Shared, part: Part): Shared {
    match part
    case CheckAt(t, now) =>
      if now < s.b.until then s
      else if s.b.needRecovery then s.(probing := s.probing + {t})
      else s.(passed := s.passed + {t})
    case ProbeEnds(t, now, answered) =>
      if t !in s.probing then s
      else if answered then Shared(CLOSED, s.probing - {t}, s.passed + {t})
      else s.(b := Tripped(now), probing := s.probing - {t})
    case CommandAt(t, now, command) =>
      if t !in s.passed then s
      else s.(b := if command.Answered? then s.b else Tripped(now), passed := s.passed - {t})
  }

  /** Whether this part contacts the server: with a probe, or with a command that was let pass. */
  predicate Reaches(s: Shared, part: Part) {
    match part
    case CheckAt(_, now) => now >= s.b.until && s.b.needRecovery
    case ProbeEnds(_, _, _) => false
    case CommandAt(t, _, _) => t in s.passed
  }

  /** A check contacts the server if its thread goes on to probe, a command if its thread was let pass. */
  lemma ReachesIff(s: Shared, t: nat, now: real, command: Command)
    ensures t !in s.probing ==> (Reaches(s, CheckAt(t, now)) <==> t in Advanced(s, CheckAt(t, now)).probing)
    ensures Reaches(s, CommandAt(t, now, command)) <==> t in s.passed && t !in Advanced(s, CommandAt(t, now, command)).passed
  {
  }

  function AdvancedAll(s: Shared, parts: seq<Part>): Shared
    decreases |parts|
  {
    if parts == [] then s else AdvancedAll(Advanced(s, parts[0]), parts[1..])
  }

  /** Parts without interruption are the operation as a whole. */
  lemma WholeOperation(s: Shared, t: nat, call: Call)
    requires t !in s.probing && t !in s.passed
    ensures var parts := [CheckAt(t, call.now), ProbeEnds(t, call.now, call.ping), CommandAt(t, call.now, call.command)];
            AdvancedAll(s, parts) == s.(b := Used(s.b, call.now, call.ping, call.command))
  {
    var parts := [CheckAt(t, call.now), ProbeEnds(t, call.now, call.ping), CommandAt(t, call.now, call.command)];
    var s1 := Advanced(s, parts[0]);
    var s2 := Advanced(s1, parts[1]);
    var s3 := Advanced(s2, parts[2]);
    assert parts[1..][1..] == parts[2..] && parts[2..][1..] == [];
    assert AdvancedAll(s, parts) == AdvancedAll(s1, parts[1..]) == AdvancedAll(s2, parts[2..]) == AdvancedAll(s3, []);
    assert s.probing + {t} - {t} == s.probing && s.passed + {t} - {t} == s.passed;
  }

  ghost predicate Within(parts: seq<Part>, failed: real) {
    forall part :: part in parts ==> failed <= part.now < failed + COOLDOWN
  }

  /** Nothing contacts the server while the cooldown that a failure at `failed` began lasts. */
  ghost predicate HeldOut(s: Shared, failed: real) {
    forall parts: seq<Part>, part: Part ::
      Within(parts, failed) && failed <= part.now < failed + COOLDOWN ==> !Reaches(AdvancedAll(s, parts), part)
  }

  lemma {:induction false} QuietCooldown(s: Shared, parts: seq<Part>, failed: real)
    requires s.b == Tripped(failed) && s.probing == {} && s.passed == {} && Within(parts, failed)
    ensures AdvancedAll(s, parts) == s
    decreases |parts|
  {
    if parts != [] {
      assert parts[0] in parts;
      QuietCooldown(Advanced(s, parts[0]), parts[1..], failed);
    }
  }

  /**
   When operations overlap, nothing contacts the server during a cooldown if and only if, at the
   failure, no thread was past its check with its command unsent and none waited for a probe.
   */
  lemma CooldownHoldsIff(s: Shared, failed: real)
    requires s.b == Tripped(failed)
    ensures HeldOut(s, failed) <==> s.probing == {} && s.passed == {}
  {
    if s.probing == {} && s.passed == {} {
      forall parts: seq<Part>, part: Part | Within(parts, failed) && failed <= part.now < failed + COOLDOWN
        ensures !Reaches(AdvancedAll(s, parts), part)
      {
        QuietCooldown(s, parts, failed);
      }
    } else if t :| t in s.passed {
      assert AdvancedAll(s, []) == s && Reaches(s, CommandAt(t, failed, Answered));
      assert Within([], failed);
    } else {
      var t :| t in s.probing;
      var probe := ProbeEnds(t, failed, true);
      assert AdvancedAll(s, [probe]) == AdvancedAll(Advanced(s, probe), []) == Advanced(s, probe);
      assert Within([probe], failed) && Reaches(Advanced(s, probe), CommandAt(t, failed, Answered));
    }
  }

  /** A breaker that is not cooling down and needs no recovery has never failed since it closed. */
  lemma {:induction false} OpenOnlyAfterFailure(calls: seq<Call>)
    requires forall c :: c in calls ==> c.command.Answered?
    ensures UsedAll(CLOSED, calls) == CLOSED
    decreases |calls|
  {
    if calls != [] {
      assert calls[0] in calls;
      OpenOnlyAfterFailure(calls[1..]);
    }
  }

  /** The server: what it stores outlives any one client. */
  class Server {
    var stored: map<string, string>

    constructor ()
      ensures stored == map[]
    {
      stored := map[];
    }
  }

  class RedisCache {
    const server: Server
    var until: real
    var needRecovery: bool

    ghost function State(): Breaker
      reads this
    {
      Breaker(until, needRecovery)
    }

    constructor (server: Server)
      ensures this.server == server && State() == CLOSED
    {
      this.server, until, needRecovery := server, 0.0, false;
    }

    method MarkUnavailable(now: real)
      modifies this
      ensures State() == Tripped(now)
    {
      until, needRecovery := now + COOLDOWN, true;
    }

    method Check(now: real, ping: bool) returns (up: bool)
      modifies this
      ensures (State(), up) == Checked(old(State()), now, ping)
    {
      if now < until {
        return false;
      }
      if needRecovery {
        if ping {
          until, needRecovery := 0.0, false;
          return true;
        }
        MarkUnavailable(now);
        return false;
      }
      return true;
    }

    method Set(key: string, value: string, now: real, ping: bool, command: Command) returns (ok: bool)
      modifies this, server
      ensures State() == Used(old(State()), now, ping, command)
      ensures var sent := Checked(old(State()), now, ping).1;
              && (ok <==> sent && command.Answered?)
              && server.stored == if sent && !command.FailedUnapplied? then old(server.stored)[key := value]
                                  else old(server.stored)
    {
      var up := Check(now, ping);
      if !up {
        return false;
      }
      if !command.FailedUnapplied? {
        server.stored := server.stored[key := value];
      }
      if !command.Answered? {
        MarkUnavailable(now);
        return false;
      }
      return true;
    }

    method GetDel(key: string, now: real, ping: bool, command: Command) returns (hit: bool, value: string)
      modifies this, server
      ensures State() == Used(old(State()), now, ping, command)
      ensures var sent := Checked(old(State()), now, ping).1;
              && (hit <==> sent && command.Answered? && key in old(server.stored))
              && (hit ==> value == old(server.stored)[key])
              && server.stored == if sent && !command.FailedUnapplied? then old(server.stored) - {key}
                                  else old(server.stored)
    {
      hit, value := false, "";
      var up := Check(now, ping);
      if !up {
        return;
      }
      if key in server.stored && command.Answered? {
        hit, value := true, server.stored[key];
      }
      if !command.FailedUnapplied? {
        server.stored := server.stored - {key};
      }
      if !command.Answered? {
        MarkUnavailable(now);
      }
    }
  }
}
