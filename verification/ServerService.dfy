/** What a connection gets from the server: a slot while there are some, and service while it is up. */
module ServerService {
  import opened ServerLifecycle

  /** The connections that hold a slot. */
  function Occupied(s: State): set<nat> {
    set c | c in s.phases && s.phases[c] !in {Rejected, SpawnFailed, Finished}
  }

  lemma OccupiedAreHolders(s: State)
    ensures Occupied(s) == Holders(s)
  {
    forall c ensures c in Occupied(s) <==> c in Holders(s) {
      if c in s.phases {
        var p := s.phases[c];
        assert p.Rejected? || p.Admitted? || p.SpawnFailed? || p.Running? || p.Refused? || p.Serving? || p.Left? || p.Finished?;
      }
    }
  }

  /**
   In every reachable state a new connection is let in if and only if no positive limit is set or
   fewer than that many hold a slot; any other is closed at once, and nothing else changes.
   */
  lemma AdmittedIff(limit: Limit, run: seq<Step>, c: nat)
    requires Legal(Init(limit), run) && Enabled(After(Init(limit), run), Accept(c))
    ensures var s := After(Init(limit), run);
            var t := Next(s, Accept(c));
            var free := limit == NoLimit || limit.max <= 0 || |Occupied(s)| < limit.max;
            && (At(t, c, Admitted) <==> free) && (At(t, c, Rejected) <==> !free) && (c in t.closed <==> c in s.closed || !free)
            && t.shared.tracked == s.shared.tracked && t.shared.up == s.shared.up
  {
    EveryState(Init(limit), run, limit);
    OccupiedAreHolders(After(Init(limit), run));
  }

  /** A handler's connection is served if the server is up when it is tracked, and closed otherwise. */
  lemma TrackedIffUp(s: State, c: nat)
    requires Enabled(s, Track(c))
    ensures var t := Next(s, Track(c));
            && (At(t, c, Serving) <==> s.shared.up) && (At(t, c, Refused) <==> !s.shared.up)
            && t.shared.tracked == (if s.shared.up then s.shared.tracked + {c} else s.shared.tracked)
            && t.closed == (if s.shared.up then s.closed else s.closed + {c})
  {
  }

  /** A served connection stays tracked, and open, until its handler leaves or a stop sweeps. */
  lemma {:induction false} ServedUntilSwept(s: State, run: seq<Step>, c: nat)
    requires Legal(s, run) && At(s, c, Serving) && c in s.shared.tracked && c !in s.closed
    requires forall e :: e in run ==> e != Leave(c) && !e.Sweep? && !(e.CloseOne? && e.c == c)
    ensures var t := After(s, run); At(t, c, Serving) && c in t.shared.tracked && c !in t.closed
    decreases |run|
  {
    if run != [] {
      assert run[0] in run;
      ServedUntilSwept(Next(s, run[0]), run[1..], c);
    }
  }

  /** A server is up from its start until a stop or a rollback, and down from then on. */
  lemma UpAndDown(s: State, e: Step)
    requires Enabled(s, e)
    ensures Next(s, e).shared.up <==> e.Start? || (s.shared.up && !e.Mark? && !e.StartRollsBack?)
  {
  }

  /** A sweep takes the whole table, and what it took is closed one by one. */
  lemma SweepTakesAll(s: State, k: nat, c: nat)
    ensures Enabled(s, Sweep(k)) ==>
              var t := Next(s, Sweep(k));
              t.shared.tracked == {} && k in t.stops && t.stops[k] == Closing(s.shared.tracked) && t.closed == s.closed
    ensures Enabled(s, CloseOne(k, c)) ==>
              var t := Next(s, CloseOne(k, c));
              t.closed == s.closed + {c} && k in t.stops && t.stops[k] == Closing(s.stops[k].pending - {c})
  {
  }

  /** A slot comes back when the handler ends, or when its thread could not be started. */
  lemma SlotsComeBack(s: State, c: nat)
    requires Enabled(s, Finish(c)) || Enabled(s, SpawnFails(c))
    ensures var e := if Enabled(s, Finish(c)) then Finish(c) else SpawnFails(c);
            Occupied(Next(s, e)) == Occupied(s) - {c} && c in Occupied(s) && c in Next(s, e).closed
  {
  }

  // ------------------------------------------------------------------ nothing gets stuck

  lemma Prepended(s: State, e: Step, rest: seq<Step>) returns (run: seq<Step>)
    requires Enabled(s, e) && Legal(Next(s, e), rest)
    ensures run == [e] + rest && Legal(s, run) && After(s, run) == After(Next(s, e), rest)
  {
    run := [e] + rest;
    assert run[1..] == rest;
  }

  lemma {:induction false} ClosingEnds(s: State, k: nat) returns (run: seq<Step>)
    requires k in s.stops && s.stops[k].Closing?
    ensures Legal(s, run)
    ensures var t := After(s, run); k in t.stops && t.stops[k] == Closing({}) && t.closed == s.closed + s.stops[k].pending
    decreases if k in s.stops && s.stops[k].Closing? then |s.stops[k].pending| else 0
  {
    if s.stops[k].pending == {} {
      run := [];
    } else {
      var c :| c in s.stops[k].pending;
      run := ClosingEnds(Next(s, CloseOne(k, c)), k);
      run := Prepended(s, CloseOne(k, c), run);
    }
  }

  /** Whatever a stop has done so far, in every reachable state it can go on to its end, and then all it found is closed. */
  lemma StopCanEnd(limit: Limit, before: seq<Step>, k: nat) returns (run: seq<Step>)
    requires Legal(Init(limit), before) && k in After(Init(limit), before).stops
    ensures var s := After(Init(limit), before);
            && Legal(s, run) && k in After(s, run).stops && After(s, run).stops[k] == Closing({})
            && (var found := if s.stops[k].Closing? then s.stops[k].pending else s.shared.tracked;
                After(s, run).closed == s.closed + found)
  {
    var s := After(Init(limit), before);
    match s.stops[k]
    case Closing(_) => run := ClosingEnds(s, k);
    case Marked => run := MarkedEnds(s, k);
    case Draining =>
      InitIsSound(limit);
      LoopsOverRuns(Init(limit), before);
      assert k in DrainingStops(s);
      run := MarkedEnds(Next(s, Drain(k)), k);
      run := Prepended(s, Drain(k), run);
  }

  lemma MarkedEnds(s: State, k: nat) returns (run: seq<Step>)
    requires k in s.stops && s.stops[k].Marked?
    ensures Legal(s, run)
    ensures var t := After(s, run); k in t.stops && t.stops[k] == Closing({}) && t.closed == s.closed + s.shared.tracked
  {
    run := ClosingEnds(Next(s, Sweep(k)), k);
    run := Prepended(s, Sweep(k), run);
  }

  /** Every connection that holds a slot can go on until it is closed and its slot is back. */
  lemma HandlerCanEnd(s: State, c: nat) returns (run: seq<Step>)
    requires c in Occupied(s)
    ensures Legal(s, run) && Occupied(After(s, run)) == Occupied(s) - {c} && c in After(s, run).closed
    decreases match s.phases[c] case Admitted => 4 case Running => 3 case Refused => 2 case Serving => 2 case _ => 1
  {
    if At(s, c, Left) {
      SlotsComeBack(s, c);
      run := Prepended(s, Finish(c), []);
    } else {
      var e := if At(s, c, Admitted) then Spawn(c) else if At(s, c, Running) then Track(c) else Leave(c);
      assert Occupied(Next(s, e)) == Occupied(s);
      run := HandlerCanEnd(Next(s, e), c);
      run := Prepended(s, e, run);
    }
  }

  /** A rejection ten seconds or more behind the last report is reported at once, with all before it. */
  lemma ReportedAtOnce(r: Rejects, now: int, later: seq<int>)
    ensures now - r.lastWarn >= 10 ==>
              Reports(r, [now] + later) == [(now, r.count + 1)] + Reports(Rejects(0, now), later)
    ensures now - r.lastWarn < 10 ==>
              Reports(r, [now] + later) == Reports(Rejects(r.count + 1, r.lastWarn), later)
  {
    assert ([now] + later)[1..] == later;
    assert [] + Reports(Rejects(r.count + 1, r.lastWarn), later) == Reports(Rejects(r.count + 1, r.lastWarn), later);
  }
}
