/**
 Connection slots, the table of tracked connections, and `stop` racing with handler threads.
 Each section held under a lock is one step; steps of any number of handlers, restarts and
 calls to `stop` interleave freely.
 */
module ServerLifecycle {

  // ------------------------------------------------------------------ what the threads share

  /** The semaphore: absent when no positive limit is configured. */
  datatype Slots = Unlimited | Limited(free: nat)

  datatype Limit = NoLimit | MaxConcurrency(max: int)

  function SlotsFor(limit: Limit): Slots {
    if limit.MaxConcurrency? && limit.max > 0 then Limited(limit.max) else Unlimited
  }

  predicate Available(s: Slots) {
    s.Unlimited? || s.free > 0
  }

  function Taken(s: Slots): Slots
    requires Available(s)
  {
    if s.Unlimited? then s else Limited(s.free - 1)
  }

  function Returned(s: Slots): Slots {
    if s.Unlimited? then s else Limited(s.free + 1)
  }

  /** `up` says that `_server` is set. */
  datatype Shared<C(==)> = Shared(up: bool, slots: Slots, tracked: set<C>)

  /** The state after one accept: taken slots or, when there is none, as before. */
  function Acquired<C>(s: Shared<C>): Shared<C> {
    if Available(s.slots) then s.(slots := Taken(s.slots)) else s
  }

  function Tracked<C>(s: Shared<C>, c: C): Shared<C> {
    if s.up then s.(tracked := s.tracked + {c}) else s
  }

  // ------------------------------------------------------------------ one handler, one stop

  datatype Phase =
    | Rejected     // no slot was free; the accept loop closed the connection
    | Admitted     // holds a slot, its thread is not running yet
    | SpawnFailed  // the thread could not be started; slot returned, connection closed
    | Running      // its thread runs, the connection is not tracked yet
    | Refused      // tracking found the server stopped; connection closed
    | Serving      // was tracked and reads frames
    | Left         // was untracked; still holds its slot
    | Finished     // slot returned, connection closed

  predicate Holds(p: Phase) {
    p in {Admitted, Running, Refused, Serving, Left}
  }

  /** A call to `stop`: the server is unset, its accept loop ends, the table is swept, the sweep is closed. */
  datatype Stop = Draining | Marked | Closing(pending: set<nat>)

  /**
   A call to `start` between setting the server and having its thread run. It holds the lock that
   `stop` and other starts need. `quiet` remembers how it was called.
   */
  datatype Starting = Idle | Underway(quiet: bool)

  /** `loops` counts the accept loops that still run. */
  datatype State = State(
    shared: Shared<nat>, phases: map<nat, Phase>, stops: map<nat, Stop>, closed: set<nat>,
    starting: Starting, loops: nat)

  datatype Step =
    | Accept(c: nat)
    | Spawn(c: nat)
    | SpawnFails(c: nat)
    | Track(c: nat)
    | Leave(c: nat)
    | Finish(c: nat)
    | Start
    | Started
    | StartRollsBack
    | Mark(k: nat)
    | Drain(k: nat)
    | Sweep(k: nat)
    | CloseOne(k: nat, c: nat)

  predicate At(s: State, c: nat, p: Phase) {
    c in s.phases && s.phases[c] == p
  }

  predicate Enabled(s: State, e: Step) {
    match e
    case Accept(c) => c !in s.phases && s.loops > 0
    case Spawn(c) => At(s, c, Admitted)
    case SpawnFails(c) => At(s, c, Admitted)
    case Track(c) => At(s, c, Running)
    case Leave(c) => At(s, c, Serving) || At(s, c, Refused)
    case Finish(c) => At(s, c, Left)
    case Start => !s.shared.up && s.starting == Idle
    case Started => s.starting.Underway?
    case StartRollsBack => s.starting.Underway?
    case Mark(k) => k !in s.stops && s.starting == Idle
    case Drain(k) => k in s.stops && s.stops[k].Draining? && s.loops > 0
    case Sweep(k) => k in s.stops && s.stops[k].Marked?
    case CloseOne(k, c) => k in s.stops && s.stops[k].Closing? && c in s.stops[k].pending
  }

  /** No accept loop still runs, and no connection is between being accepted and being tracked. */
  predicate Quiet(s: State) {
    s.loops == 0 && forall c :: c in s.phases ==> s.phases[c] != Admitted && s.phases[c] != Running
  }

  function Move(s: State, c: nat, p: Phase): State {
    s.(phases := s.phases[c := p])
  }

  function Closed(s: State, c: nat): State {
    s.(closed := s.closed + {c})
  }

  function Freed(s: State): State {
    s.(shared := s.shared.(slots := Returned(s.shared.slots)))
  }

  function Next(s: State, e: Step): State
    requires Enabled(s, e)
  {
    match e
    case Accept(c) =>
      if Available(s.shared.slots) then Move(s, c, Admitted).(shared := Acquired(s.shared))
      else Closed(Move(s, c, Rejected), c)
    case Spawn(c) => Move(s, c, Running)
    case SpawnFails(c) => Closed(Freed(Move(s, c, SpawnFailed)), c)
    case Track(c) =>
      if s.shared.up then Move(s, c, Serving).(shared := Tracked(s.shared, c))
      else Closed(Move(s, c, Refused), c)
    case Leave(c) => Move(s, c, Left).(shared := s.shared.(tracked := s.shared.tracked - {c}))
    case Finish(c) => Closed(Freed(Move(s, c, Finished)), c)
    case Start => s.(shared := s.shared.(up := true), starting := Underway(Quiet(s)))
    case Started => s.(starting := Idle, loops := s.loops + 1)
    case StartRollsBack => s.(shared := s.shared.(up := false), starting := Idle)
    case Mark(k) =>
      s.(shared := s.shared.(up := false), stops := s.stops[k := if s.shared.up then Draining else Marked])
    case Drain(k) => s.(stops := s.stops[k := Marked], loops := s.loops - 1)
    case Sweep(k) => s.(shared := s.shared.(tracked := {}), stops := s.stops[k := Closing(s.shared.tracked)])
    case CloseOne(k, c) => Closed(s, c).(stops := s.stops[k := Closing(s.stops[k].pending - {c})])
  }

  predicate Legal(s: State, run: seq<Step>)
    decreases |run|
  {
    run == [] || (Enabled(s, run[0]) && Legal(Next(s, run[0]), run[1..]))
  }

  function After(s: State, run: seq<Step>): State
    requires Legal(s, run)
    decreases |run|
  {
    if run == [] then s else After(Next(s, run[0]), run[1..])
  }

  function Init(limit: Limit): State {
    State(Shared(false, SlotsFor(limit), {}), map[], map[], {}, Idle, 0)
  }

  // ------------------------------------------------------------------ what every step keeps

  function Holders(s: State): set<nat> {
    set c | c in s.phases && Holds(s.phases[c])
  }

  /** Free slots and held slots add up to the configured number. */
  ghost predicate SlotsBalance(s: State, limit: Limit) {
    match s.shared.slots
    case Unlimited => SlotsFor(limit) == Unlimited
    case Limited(free) => SlotsFor(limit) == Limited(free + |Holders(s)|)
  }

  ghost predicate Awaits(s: State, c: nat) {
    exists k :: k in s.stops && s.stops[k].Closing? && c in s.stops[k].pending
  }

  /** A connection that was tracked and whose handler still serves it is never lost sight of. */
  ghost predicate NoneEscapes(s: State) {
    && (forall c :: At(s, c, Serving) ==> c in s.shared.tracked || Awaits(s, c) || c in s.closed)
    && (forall c :: c in s.shared.tracked ==> At(s, c, Serving))
    && (forall c :: At(s, c, Refused) ==> c in s.closed)
  }

  ghost predicate Sweeping(s: State) {
    exists k :: k in s.stops && !s.stops[k].Closing?
  }

  /** A stopped server has an empty table, unless some `stop` has still to sweep it. */
  ghost predicate EmptyWhenDown(s: State) {
    !s.shared.up && !Sweeping(s) ==> s.shared.tracked == {}
  }

  lemma MovedHolders(s: State, c: nat, p: Phase)
    ensures Holders(Move(s, c, p)) == if Holds(p) then Holders(s) + {c} else Holders(s) - {c}
    ensures c in Holders(s) <==> c in s.phases && Holds(s.phases[c])
  {
  }

  lemma HoldersMove(s: State, c: nat, p: Phase)
    ensures var before := c in s.phases && Holds(s.phases[c]);
            |Holders(Move(s, c, p))| == |Holders(s)| + (if Holds(p) then 1 else 0) - (if before then 1 else 0)
  {
    MovedHolders(s, c, p);
  }

  lemma SameHolders(s: State, t: State)
    requires s.phases == t.phases
    ensures Holders(s) == Holders(t)
  {
  }

  predicate Moves(e: Step) {
    e.Accept? || e.Spawn? || e.SpawnFails? || e.Track? || e.Leave? || e.Finish?
  }

  /** Where a handler's step leaves its connection. */
  function Goal(s: State, e: Step): Phase
    requires Enabled(s, e) && Moves(e)
  {
    Next(s, e).phases[e.c]
  }

  lemma StepMoves(s: State, e: Step)
    requires Enabled(s, e)
    ensures Moves(e) ==> Next(s, e).phases == Move(s, e.c, Goal(s, e)).phases
    ensures !Moves(e) ==> Next(s, e).phases == s.phases
  {
  }

  lemma StepBalances(s: State, e: Step, limit: Limit)
    requires Enabled(s, e) && SlotsBalance(s, limit)
    ensures SlotsBalance(Next(s, e), limit)
  {
    StepMoves(s, e);
    if Moves(e) {
      HoldersMove(s, e.c, Goal(s, e));
      SameHolders(Next(s, e), Move(s, e.c, Goal(s, e)));
    } else {
      SameHolders(s, Next(s, e));
    }
  }

  lemma StillAwaits(s: State, e: Step, c: nat)
    requires Enabled(s, e) && Awaits(s, c)
    ensures Awaits(Next(s, e), c) || c in Next(s, e).closed
  {
    var k :| k in s.stops && s.stops[k].Closing? && c in s.stops[k].pending;
    var t := Next(s, e);
    assert k in t.stops && t.stops[k].Closing?;
    assert c in t.stops[k].pending || c in t.closed;
  }

  lemma StepLosesNone(s: State, e: Step)
    requires Enabled(s, e) && NoneEscapes(s)
    ensures NoneEscapes(Next(s, e))
  {
    var t := Next(s, e);
    forall c | At(t, c, Serving) ensures c in t.shared.tracked || Awaits(t, c) || c in t.closed {
      if At(s, c, Serving) && Awaits(s, c) {
        StillAwaits(s, e, c);
      }
      assert e.Sweep? ==> t.stops[e.k] == Closing(s.shared.tracked);
    }
  }

  /** Some `stop` has still to sweep the table, or it is empty. */
  ghost predicate EmptyOrSweeping(s: State) {
    s.shared.tracked == {} || Sweeping(s)
  }

  /** A quiet start stays quiet while it is under way, so nothing is tracked meanwhile. */
  ghost predicate QuietHolds(s: State) {
    s.starting == Underway(true) ==> Quiet(s) && EmptyOrSweeping(s)
  }

  /** A rollback is of a start that was called when all was quiet. */
  predicate CleanStep(s: State, e: Step) {
    e.StartRollsBack? ==> s.starting == Underway(true)
  }

  lemma StillSweeping(s: State, e: Step)
    requires Enabled(s, e) && Sweeping(s) && !e.Sweep?
    ensures Sweeping(Next(s, e))
  {
    var k :| k in s.stops && !s.stops[k].Closing?;
    assert k in Next(s, e).stops && !Next(s, e).stops[k].Closing?;
  }

  lemma StepEmpties(s: State, e: Step)
    requires Enabled(s, e) && EmptyWhenDown(s) && QuietHolds(s) && CleanStep(s, e)
    ensures EmptyWhenDown(Next(s, e)) && QuietHolds(Next(s, e))
  {
    var t := Next(s, e);
    if Sweeping(s) && !e.Sweep? {
      StillSweeping(s, e);
    }
    assert e.Mark? ==> e.k in t.stops && !t.stops[e.k].Closing?;
  }

  // ------------------------------------------------------------------ every run

  /** Over every interleaving, slots balance and no tracked connection escapes. */
  lemma {:induction false} EveryState(s: State, run: seq<Step>, limit: Limit)
    requires Legal(s, run) && SlotsBalance(s, limit) && NoneEscapes(s)
    ensures SlotsBalance(After(s, run), limit) && NoneEscapes(After(s, run))
    decreases |run|
  {
    if run != [] {
      StepBalances(s, run[0], limit);
      StepLosesNone(s, run[0]);
      EveryState(Next(s, run[0]), run[1..], limit);
    }
  }

  ghost predicate CleanRun(s: State, run: seq<Step>)
    requires Legal(s, run)
    decreases |run|
  {
    run != [] ==> CleanStep(s, run[0]) && CleanRun(Next(s, run[0]), run[1..])
  }

  lemma {:induction false} EmptyOverRuns(s: State, run: seq<Step>)
    requires Legal(s, run) && EmptyWhenDown(s) && QuietHolds(s) && CleanRun(s, run)
    ensures EmptyWhenDown(After(s, run)) && QuietHolds(After(s, run))
    decreases |run|
  {
    if run != [] {
      StepEmpties(s, run[0]);
      EmptyOverRuns(Next(s, run[0]), run[1..]);
    }
  }

  lemma InitIsSound(limit: Limit)
    ensures SlotsBalance(Init(limit), limit) && NoneEscapes(Init(limit))
    ensures EmptyWhenDown(Init(limit)) && QuietHolds(Init(limit)) && LoopsOwned(Init(limit))
  {
    assert Holders(Init(limit)) == {};
  }

  /** A call to `stop` has come to its end, and no other one is under way. */
  ghost predicate AllStopsEnded(s: State) {
    forall k :: k in s.stops ==> s.stops[k] == Closing({})
  }

  /**
   Once every call to `stop` has ended and the server has not been started again, the table is
   empty, and whatever was tracked has been closed or was untracked by its own handler: starts
   may fail and roll back, if they were called when all was quiet.
   */
  lemma StopClosesEverything(limit: Limit, run: seq<Step>)
    requires Legal(Init(limit), run) && CleanRun(Init(limit), run)
    requires AllStopsEnded(After(Init(limit), run)) && !After(Init(limit), run).shared.up
    ensures var s := After(Init(limit), run);
            && s.shared.tracked == {}
            && (forall c :: At(s, c, Serving) || At(s, c, Refused) ==> c in s.closed)
  {
    InitIsSound(limit);
    EveryState(Init(limit), run, limit);
    EmptyOverRuns(Init(limit), run);
  }

  /** Slots in use never exceed the limit, and each is accounted for, in every reachable state. */
  lemma SlotsAreBounded(limit: Limit, run: seq<Step>)
    requires Legal(Init(limit), run)
    ensures var s := After(Init(limit), run);
            if limit.MaxConcurrency? && limit.max > 0
            then s.shared.slots.Limited? && s.shared.slots.free + |Holders(s)| == limit.max
            else s.shared.slots.Unlimited?
  {
    InitIsSound(limit);
    EveryState(Init(limit), run, limit);
  }

  /** After a sweep of a stopped server, nothing enters the table until the next start. */
  lemma {:induction false} SweptStaysEmpty(s: State, k: nat, run: seq<Step>)
    requires !s.shared.up && Legal(s, [Sweep(k)] + run) && Start !in run
    ensures After(s, [Sweep(k)] + run).shared.tracked == {}
    ensures forall c :: At(After(s, [Sweep(k)] + run), c, Serving) ==> At(s, c, Serving)
  {
    assert ([Sweep(k)] + run)[1..] == run;
    DownStaysEmpty(Next(s, Sweep(k)), run);
  }

  lemma {:induction false} DownStaysEmpty(s: State, run: seq<Step>)
    requires !s.shared.up && s.shared.tracked == {} && Legal(s, run) && Start !in run
    ensures After(s, run).shared.tracked == {}
    ensures forall c :: At(After(s, run), c, Serving) ==> At(s, c, Serving)
    decreases |run|
  {
    if run != [] {
      DownStaysEmpty(Next(s, run[0]), run[1..]);
    }
  }

  // ------------------------------------------------------------------ starts that fail

  function DrainingStops(s: State): set<nat> {
    set k | k in s.stops && s.stops[k].Draining?
  }

  /** Each accept loop belongs to the running server or to a `stop` that is still ending it. */
  ghost predicate LoopsOwned(s: State) {
    s.loops == |DrainingStops(s)| + if s.shared.up && s.starting == Idle then 1 else 0
  }

  lemma MarkDrains(s: State, k: nat)
    requires Enabled(s, Mark(k))
    ensures |DrainingStops(Next(s, Mark(k)))| == |DrainingStops(s)| + if s.shared.up then 1 else 0
  {
    assert DrainingStops(Next(s, Mark(k))) == if s.shared.up then DrainingStops(s) + {k} else DrainingStops(s);
    assert k !in DrainingStops(s);
  }

  lemma DrainDrains(s: State, k: nat)
    requires Enabled(s, Drain(k))
    ensures |DrainingStops(Next(s, Drain(k)))| == |DrainingStops(s)| - 1
  {
    assert DrainingStops(Next(s, Drain(k))) == DrainingStops(s) - {k};
    assert k in DrainingStops(s);
  }

  lemma OthersDrain(s: State, e: Step)
    requires Enabled(s, e) && !e.Mark? && !e.Drain?
    ensures DrainingStops(Next(s, e)) == DrainingStops(s)
  {
  }

  lemma StepLoops(s: State, e: Step)
    requires Enabled(s, e) && LoopsOwned(s) && (s.starting.Underway? ==> s.shared.up)
    ensures LoopsOwned(Next(s, e)) && (Next(s, e).starting.Underway? ==> Next(s, e).shared.up)
  {
    match e
    case Mark(k) => MarkDrains(s, k);
    case Drain(k) => DrainDrains(s, k);
    case _ => OthersDrain(s, e);
  }

  /** The start is under way the whole time: it ends in the rollback and nowhere else. */
  predicate OnlyMeanwhile(run: seq<Step>) {
    Started !in run && StartRollsBack !in run
  }

  lemma {:induction false} Extended(s: State, run: seq<Step>, e: Step)
    requires Legal(s, run) && Enabled(After(s, run), e)
    ensures Legal(s, run + [e]) && After(s, run + [e]) == Next(After(s, run), e)
    decreases |run|
  {
    if run == [] {
      assert [] + [e] == [e] && [e][1..] == [];
    } else {
      assert (run + [e])[1..] == run[1..] + [e];
      Extended(Next(s, run[0]), run[1..], e);
    }
  }

  /** Whatever happens while this start is under way, its failure leaves the table as it should be. */
  ghost predicate RollbackHarmless(s: State)
    requires Enabled(s, Start)
  {
    forall run :: Legal(Next(s, Start), run) && OnlyMeanwhile(run) ==> SafeToRollBack(After(Next(s, Start), run))
  }

  ghost predicate SafeToRollBack(s: State) {
    Enabled(s, StartRollsBack) && EmptyWhenDown(Next(s, StartRollsBack))
  }

  lemma {:induction false} StaysUnderway(s: State, run: seq<Step>)
    requires Legal(s, run) && OnlyMeanwhile(run) && s.starting.Underway?
    ensures After(s, run).starting == s.starting
    decreases |run|
  {
    if run != [] {
      assert run[0] in run;
      StaysUnderway(Next(s, run[0]), run[1..]);
    }
  }

  lemma {:induction false} CleanMeanwhile(s: State, run: seq<Step>)
    requires Legal(s, run) && OnlyMeanwhile(run)
    ensures CleanRun(s, run)
    decreases |run|
  {
    if run != [] {
      assert run[0] in run;
      CleanMeanwhile(Next(s, run[0]), run[1..]);
    }
  }

  lemma {:induction false} QuietIsHarmless(s: State)
    requires Enabled(s, Start) && EmptyWhenDown(s) && Quiet(s)
    ensures RollbackHarmless(s)
  {
    var up := Next(s, Start);
    assert up.stops == s.stops && up.shared.tracked == s.shared.tracked;
    assert Sweeping(s) ==> Sweeping(up);
    forall run | Legal(up, run) && OnlyMeanwhile(run) ensures SafeToRollBack(After(up, run)) {
      StaysUnderway(up, run);
      CleanMeanwhile(up, run);
      EmptyOverRuns(up, run);
      StepEmpties(After(up, run), StartRollsBack);
    }
  }

  /** Runs every `stop` that has not swept yet up to its sweep. */
  lemma {:induction false} SweepAll(s: State, open: set<nat>) returns (run: seq<Step>)
    requires s.starting.Underway? && s.shared.up && LoopsOwned(s)
    requires forall k :: k in s.stops && !s.stops[k].Closing? ==> k in open
    ensures Legal(s, run) && OnlyMeanwhile(run)
    ensures !Sweeping(After(s, run)) && After(s, run).phases == s.phases
    ensures After(s, run).shared.up && After(s, run).starting == s.starting
    decreases open
  {
    if k :| k in s.stops && !s.stops[k].Closing? {
      var s1 := s;
      if s.stops[k].Draining? {
        assert k in DrainingStops(s);
        s1 := Next(s, Drain(k));
        StepLoops(s, Drain(k));
      }
      var s2 := Next(s1, Sweep(k));
      StepLoops(s1, Sweep(k));
      run := SweepAll(s2, open - {k});
      run := Prepend(s1, Sweep(k), run);
      if s.stops[k].Draining? {
        run := Prepend(s, Drain(k), run);
      }
    } else {
      run := [];
    }
  }

  /** A connection that runs before it is tracked can be tracked by the failing start. */
  lemma {:induction false} RunningHarms(s: State, c: nat) returns (run: seq<Step>)
    requires s.starting.Underway? && s.shared.up && LoopsOwned(s) && At(s, c, Running)
    ensures Legal(s, run) && OnlyMeanwhile(run) && !SafeToRollBack(After(s, run))
  {
    var sweep := SweepAll(s, s.stops.Keys);
    var t := After(s, sweep);
    Extended(s, sweep, Track(c));
    run := sweep + [Track(c)];
    var u := Next(Next(t, Track(c)), StartRollsBack);
    assert u.stops == t.stops && c in u.shared.tracked;
    assert !Sweeping(u);
  }

  lemma {:induction false} AdmittedHarms(s: State, c: nat) returns (run: seq<Step>)
    requires s.starting.Underway? && s.shared.up && LoopsOwned(s) && At(s, c, Admitted)
    ensures Legal(s, run) && OnlyMeanwhile(run) && !SafeToRollBack(After(s, run))
  {
    StepLoops(s, Spawn(c));
    run := RunningHarms(Next(s, Spawn(c)), c);
    run := Prepend(s, Spawn(c), run);
  }

  lemma {:induction false} Unused(taken: set<nat>) returns (c: nat)
    ensures c !in taken && forall x :: x in taken ==> x < c
    decreases taken
  {
    if taken == {} {
      c := 0;
    } else {
      var x :| x in taken;
      var d := Unused(taken - {x});
      assert forall y :: y in taken ==> y == x || y in taken - {x};
      c := if d <= x then x + 1 else d;
    }
  }

  /** An accept loop that still runs, and a slot, are enough for a new connection to come first. */
  lemma {:induction false} AcceptHarms(s: State) returns (run: seq<Step>)
    requires s.starting.Underway? && s.shared.up && LoopsOwned(s) && s.loops > 0 && Available(s.shared.slots)
    ensures Legal(s, run) && OnlyMeanwhile(run) && !SafeToRollBack(After(s, run))
  {
    var c := Unused(s.phases.Keys);
    StepLoops(s, Accept(c));
    run := AdmittedHarms(Next(s, Accept(c)), c);
    run := Prepend(s, Accept(c), run);
  }

  /** Without a slot, a connection that holds one can finish first. */
  lemma {:induction false} FullHarms(s: State, c: nat) returns (run: seq<Step>)
    requires s.starting.Underway? && s.shared.up && LoopsOwned(s) && s.loops > 0
    requires At(s, c, Serving) || At(s, c, Refused) || At(s, c, Left)
    ensures Legal(s, run) && OnlyMeanwhile(run) && !SafeToRollBack(After(s, run))
    decreases !At(s, c, Left)
  {
    if At(s, c, Left) {
      StepLoops(s, Finish(c));
      run := AcceptHarms(Next(s, Finish(c)));
      run := Prepend(s, Finish(c), run);
    } else {
      StepLoops(s, Leave(c));
      run := FullHarms(Next(s, Leave(c)), c);
      run := Prepend(s, Leave(c), run);
    }
  }

  lemma {:induction false} UnquietHarms(s: State, limit: Limit) returns (run: seq<Step>)
    requires s.starting.Underway? && s.shared.up && LoopsOwned(s) && SlotsBalance(s, limit) && !Quiet(s)
    ensures Legal(s, run) && OnlyMeanwhile(run) && !SafeToRollBack(After(s, run))
  {
    if c :| c in s.phases && s.phases[c] == Running {
      run := RunningHarms(s, c);
    } else if c :| c in s.phases && s.phases[c] == Admitted {
      run := AdmittedHarms(s, c);
    } else if Available(s.shared.slots) {
      run := AcceptHarms(s);
    } else {
      assert Holders(s) != {};
      var c :| c in Holders(s);
      run := FullHarms(s, c);
    }
  }

  /**
   A start that fails and rolls back does no harm, whatever happens meanwhile, if and only if it
   was called when no accept loop was still running and no connection was on its way to be tracked.
   */
  lemma RollbackHarmlessIff(s: State, limit: Limit)
    requires Enabled(s, Start) && EmptyWhenDown(s) && LoopsOwned(s) && SlotsBalance(s, limit)
    ensures RollbackHarmless(s) <==> Quiet(s)
  {
    if Quiet(s) {
      QuietIsHarmless(s);
    } else {
      StepLoops(s, Start);
      StepBalances(s, Start, limit);
      var run := UnquietHarms(Next(s, Start), limit);
      assert !SafeToRollBack(After(Next(s, Start), run));
    }
  }

  lemma {:induction false} LoopsOverRuns(s: State, run: seq<Step>)
    requires Legal(s, run) && LoopsOwned(s) && (s.starting.Underway? ==> s.shared.up)
    ensures LoopsOwned(After(s, run))
    decreases |run|
  {
    if run != [] {
      StepLoops(s, run[0]);
      LoopsOverRuns(Next(s, run[0]), run[1..]);
    }
  }

  /** The same in every reachable state. */
  lemma RollbacksInRuns(limit: Limit, run: seq<Step>)
    requires Legal(Init(limit), run) && CleanRun(Init(limit), run) && Enabled(After(Init(limit), run), Start)
    ensures RollbackHarmless(After(Init(limit), run)) <==> Quiet(After(Init(limit), run))
  {
    InitIsSound(limit);
    EveryState(Init(limit), run, limit);
    EmptyOverRuns(Init(limit), run);
    LoopsOverRuns(Init(limit), run);
    RollbackHarmlessIff(After(Init(limit), run), limit);
  }

  /** The table can indeed be left with a connection although the server is down. */
  lemma RollBackLeavesOneTracked()
    ensures exists run :: Legal(Init(NoLimit), run) && !EmptyWhenDown(After(Init(NoLimit), run))
  {
    var tail := LeftOverTracks();
    var s0 := Init(NoLimit);
    var s1 := Next(s0, Start);
    var s2 := Next(s1, Started);
    var s3 := Next(s2, Accept(0));
    var s4 := Next(s3, Spawn(0));
    var s5 := Next(s4, Mark(0));
    var s6 := Next(s5, Drain(0));
    assert Next(s6, Sweep(0)) == StoppedTooEarly();
    tail := Prepend(s6, Sweep(0), tail);
    tail := Prepend(s5, Drain(0), tail);
    tail := Prepend(s4, Mark(0), tail);
    tail := Prepend(s3, Spawn(0), tail);
    tail := Prepend(s2, Accept(0), tail);
    tail := Prepend(s1, Started, tail);
    tail := Prepend(s0, Start, tail);
  }

  /** The server was stopped before the one running handler tracked its connection. */
  function StoppedTooEarly(): State {
    State(Shared(false, Unlimited, {}), map[0 := Running], map[0 := Closing({})], {}, Idle, 0)
  }

  lemma LeftOverTracks() returns (run: seq<Step>)
    ensures Legal(StoppedTooEarly(), run) && !EmptyWhenDown(After(StoppedTooEarly(), run))
  {
    var s0 := StoppedTooEarly();
    var s1 := Next(s0, Start);
    var s2 := Next(s1, Track(0));
    var s3 := Next(s2, StartRollsBack);
    assert 0 in s3.shared.tracked && !Sweeping(s3);
    run := Prepend(s2, StartRollsBack, []);
    run := Prepend(s1, Track(0), run);
    run := Prepend(s0, Start, run);
  }

  lemma Prepend(s: State, e: Step, rest: seq<Step>) returns (run: seq<Step>)
    requires Enabled(s, e) && Legal(Next(s, e), rest)
    ensures run == [e] + rest && Legal(s, run) && After(s, run) == After(Next(s, e), rest)
  {
    run := [e] + rest;
    assert run[1..] == rest;
  }

  // ------------------------------------------------------------------ one release for each acquire

  predicate Takes(s: State, e: Step, c: nat) {
    e == Accept(c) && Available(s.shared.slots)
  }

  predicate Releases(e: Step, c: nat) {
    e == SpawnFails(c) || e == Finish(c)
  }

  function TakenBy(s: State, run: seq<Step>, c: nat): nat
    requires Legal(s, run)
    decreases |run|
  {
    if run == [] then 0 else (if Takes(s, run[0], c) then 1 else 0) + TakenBy(Next(s, run[0]), run[1..], c)
  }

  function ReleasedBy(run: seq<Step>, c: nat): nat {
    if run == [] then 0 else (if Releases(run[0], c) then 1 else 0) + ReleasedBy(run[1..], c)
  }

  function Held(s: State, c: nat): nat {
    if c in s.phases && Holds(s.phases[c]) then 1 else 0
  }

  /** What a connection took and has not yet given back is what it holds. */
  lemma {:induction false} OneReleasePerAcquire(s: State, run: seq<Step>, c: nat)
    requires Legal(s, run)
    ensures Held(s, c) + TakenBy(s, run, c) == Held(After(s, run), c) + ReleasedBy(run, c)
    ensures TakenBy(s, run, c) <= if c in s.phases then 0 else 1
    decreases |run|
  {
    if run != [] {
      var t := Next(s, run[0]);
      StepMoves(s, run[0]);
      assert Held(s, c) + (if Takes(s, run[0], c) then 1 else 0) == Held(t, c) + (if Releases(run[0], c) then 1 else 0);
      OneReleasePerAcquire(t, run[1..], c);
    }
  }

  // ------------------------------------------------------------------ rejections are all reported

  const REJECT_WARN_COOLDOWN := 10

  /** The rejections not yet reported, and when the last report was made. */
  datatype Rejects = Rejects(count: nat, lastWarn: int)

  function Noted(r: Rejects, now: int): (Rejects, nat) {
    if now - r.lastWarn < REJECT_WARN_COOLDOWN then (r.(count := r.count + 1), 0)
    else (Rejects(0, now), r.count + 1)
  }

  /** The reports of a run of rejections at the given instants: when, and how many. */
  function Reports(r: Rejects, instants: seq<int>): seq<(int, nat)>
    decreases |instants|
  {
    if instants == [] then []
    else
      var (r', n) := Noted(r, instants[0]);
      (if n > 0 then [(instants[0], n)] else []) + Reports(r', instants[1..])
  }

  function Pending(r: Rejects, instants: seq<int>): nat
    decreases |instants|
  {
    if instants == [] then r.count else Pending(Noted(r, instants[0]).0, instants[1..])
  }

  function Total(reports: seq<(int, nat)>): nat {
    if reports == [] then 0 else reports[0].1 + Total(reports[1..])
  }

  /** Every rejection is in exactly one report or still counted; reports keep their distance. */
  lemma {:induction false} RejectsAreConserved(r: Rejects, instants: seq<int>)
    ensures Total(Reports(r, instants)) + Pending(r, instants) == r.count + |instants|
    ensures var reports := Reports(r, instants);
            && (reports != [] ==> reports[0].0 - r.lastWarn >= REJECT_WARN_COOLDOWN)
            && (forall i :: 0 < i < |reports| ==> reports[i].0 - reports[i - 1].0 >= REJECT_WARN_COOLDOWN)
    decreases |instants|
  {
    if instants != [] {
      var (r', n) := Noted(r, instants[0]);
      RejectsAreConserved(r', instants[1..]);
      var rest := Reports(r', instants[1..]);
      if n > 0 {
        assert Reports(r, instants) == [(instants[0], n)] + rest;
        assert ([(instants[0], n)] + rest)[1..] == rest;
      } else {
        assert Reports(r, instants) == rest;
      }
    }
  }

  // ------------------------------------------------------------------ the server object

  class Socket {
    var open: bool

    constructor ()
      ensures open
    {
      open := true;
    }

    method Close()
      modifies this
      ensures !open
    {
      open := false;
    }
  }

  class TcpServer {
    var up: bool
    var slots: Slots
    var connections: set<Socket>
    var rejectCount: nat
    var lastRejectWarn: int

    ghost function SharedState(): Shared<Socket>
      reads this
    {
      Shared(up, slots, connections)
    }

    ghost function RejectState(): Rejects
      reads this
    {
      Rejects(rejectCount, lastRejectWarn)
    }

    constructor (limit: Limit)
      ensures SharedState() == Shared(false, SlotsFor(limit), {}) && RejectState() == Rejects(0, 0)
    {
      up, slots, connections := false, SlotsFor(limit), {};
      rejectCount, lastRejectWarn := 0, 0;
    }

    /** Takes a slot if there is one; otherwise notes the rejection and may report. */
    method AcquireSlot(now: int) returns (ok: bool, reported: nat)
      modifies `slots, `rejectCount, `lastRejectWarn
      ensures ok <==> old(slots) == Unlimited || old(slots).free > 0
      ensures slots == if old(slots).Limited? && old(slots).free > 0 then Limited(old(slots).free - 1) else old(slots)
      ensures SharedState() == Acquired(old(SharedState()))
      ensures (RejectState(), reported) == if ok then (old(RejectState()), 0) else Noted(old(RejectState()), now)
    {
      match slots
      case Unlimited =>
        return true, 0;
      case Limited(free) =>
        if free > 0 {
          slots := Limited(free - 1);
          return true, 0;
        }
        ok := false;
        reported := RecordReject(now);
    }

    method RecordReject(now: int) returns (reported: nat)
      modifies `rejectCount, `lastRejectWarn
      ensures (RejectState(), reported) == Noted(old(RejectState()), now)
      ensures reported == (if now - old(lastRejectWarn) >= 10 then old(rejectCount) + 1 else 0)
    {
      rejectCount := rejectCount + 1;
      if now - lastRejectWarn < REJECT_WARN_COOLDOWN {
        return 0;
      }
      reported := rejectCount;
      lastRejectWarn := now;
      rejectCount := 0;
    }

    method ReleaseSlot()
      modifies `slots
      ensures SharedState() == old(SharedState()).(slots := Returned(old(slots)))
      ensures slots == if old(slots).Limited? then Limited(old(slots).free + 1) else Unlimited
    {
      match slots
      case Unlimited =>
      case Limited(free) =>
        slots := Limited(free + 1);
    }

    method TrackConnection(conn: Socket) returns (ok: bool)
      modifies `connections
      ensures ok == up && SharedState() == Tracked(old(SharedState()), conn)
      ensures connections == if up then old(connections) + {conn} else old(connections)
    {
      if !up {
        return false;
      }
      connections := connections + {conn};
      return true;
    }

    method UntrackConnection(conn: Socket)
      modifies `connections
      ensures SharedState() == old(SharedState()).(tracked := old(connections) - {conn})
    {
      connections := connections - {conn};
    }

    /** Takes the table in one locked section, then closes what it took. */
    method CloseAllConnections()
      modifies `connections, connections
      ensures SharedState() == old(SharedState()).(tracked := {})
      ensures forall conn :: conn in old(connections) ==> !conn.open
    {
      var conns := connections;
      connections := {};
      var left := conns;
      while left != {}
        invariant left <= conns && SharedState() == old(SharedState()).(tracked := {})
        invariant forall conn :: conn in conns - left ==> !conn.open
        modifies conns
        decreases left
      {
        var conn :| conn in left;
        conn.Close();
        left := left - {conn};
      }
    }

    /** Undisturbed, `stop` leaves the server unset, the table empty and every entry closed. */
    method Stop()
      modifies this, connections
      ensures SharedState() == old(SharedState()).(up := false, tracked := {})
      ensures forall conn :: conn in old(connections) ==> !conn.open
    {
      up := false;
      CloseAllConnections();
    }
  }
}
