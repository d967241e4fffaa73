/**
 Whole runs of the in-process queue: any number of producers and workers, interleaved one
 atomic step at a time. A worker thread holds its reservation in `inFlight` until it settles it.
 */
module QueueRuns {
  import opened Common
  import opened Tasks
  import opened MemoryTaskQueue

  datatype System = System(
    q: Queue,
    inFlight: seq<Envelope>,
    // history, by task id
    enqueued: multiset<string>, succeeded: multiset<string>, buried: multiset<string>,
    // every record ever written, oldest first
    updates: seq<Record>, deaths: seq<Record>)

  datatype Action =
    | Enqueue(env: Envelope, delay: real, now: real)
    | Reserve(now: real)
    | Finish(thread: nat, outcome: Outcome, now: real)
    | Inspect(now: real)

  const START := System(EMPTY, [], multiset{}, multiset{}, multiset{}, [], [])

  function Act(s: System, b: Bounds, p: Policy, a: Action): System {
    match a
    case Enqueue(env, delay, now) =>
      s.(q := Enqueued(s.q, b, env, delay, now),
         enqueued := s.enqueued + multiset{env.id},
         updates := s.updates + [RecordOf(env, if env.attempts != 0 then Retrying else Status.Queued)])
    case Reserve(now) =>
      var (q, env) := Reserved(s.q, b, now);
      if env.None? then s.(q := q)
      else s.(q := q, inFlight := s.inFlight + [env.value],
              updates := s.updates + [RecordOf(env.value, Running)])
    case Finish(i, outcome, now) =>
      if i >= |s.inFlight| then s
      else Finished(s, b, i, Decide(p, s.inFlight[i], outcome), now)
    case Inspect(now) => s.(q := Promoted(s.q, now))
  }

  /** A thread settles its reservation: one queue operation, and the reservation is gone. */
  function Finished(s: System, b: Bounds, i: nat, settlement: Settlement, now: real): System
    requires i < |s.inFlight|
  {
    var env := s.inFlight[i];
    System(
      Settled(s.q, b, env, settlement, now),
      s.inFlight[..i] + s.inFlight[i + 1..],
      s.enqueued,
      if settlement.Ack? then s.succeeded + multiset{env.id} else s.succeeded,
      if settlement.Bury? then s.buried + multiset{env.id} else s.buried,
      s.updates + [FinalRecord(env, settlement)],
      if settlement.Bury? then s.deaths + [FinalRecord(env, settlement)] else s.deaths)
  }

  function FinalRecord(env: Envelope, settlement: Settlement): Record {
    match settlement
    case Ack => RecordOf(env, Succeeded)
    case Retry(_, error) => RecordOf(Failed(env, error), Retrying)
    case Bury(error) => RecordOf(Buried(env, error), Dead)
  }

  function Run(s: System, b: Bounds, p: Policy, actions: seq<Action>): System
    decreases |actions|
  {
    if actions == [] then s else Run(Act(s, b, p, actions[0]), b, p, actions[1..])
  }

  // ------------------------------------------------------------------ the line

  /** The line envelopes stand in: ready ones first, then the heap in pop order. */
  function Line(q: Queue): seq<Envelope> {
    q.ready + Envelopes(q.heap)
  }

  function Insert(line: seq<Envelope>, n: nat, z: Envelope): seq<Envelope>
    requires n <= |line|
  {
    line[..n] + [z] + line[n..]
  }

  /** Pushing inserts at one position and moves nothing else. */
  lemma {:induction false} PushInserts(heap: seq<Entry>, e: Entry) returns (n: nat)
    ensures n <= |heap| && Push(heap, e) == heap[..n] + [e] + heap[n..]
  {
    if heap == [] || Before(e, heap[0]) {
      n := 0;
    } else {
      var m := PushInserts(heap[1..], e);
      n := m + 1;
      assert heap[..n] == [heap[0]] + heap[1..][..m];
      assert heap[n..] == heap[1..][m..];
    }
  }

  lemma PutInserts(q: Queue, env: Envelope, delay: real, now: real) returns (n: nat)
    ensures n <= |Line(q)| && Line(Put(q, env, delay, now)) == Insert(Line(q), n, env)
  {
    var e := Entry(now + delay, q.number + 1, env);
    var m := PushInserts(q.heap, e);
    n := |q.ready| + m;
    assert Envelopes(Push(q.heap, e)) == Insert(Envelopes(q.heap), m, env);
    InsertBehind(q.ready, Envelopes(q.heap), m, env);
  }

  lemma InsertBehind(front: seq<Envelope>, line: seq<Envelope>, m: nat, z: Envelope)
    requires m <= |line|
    ensures front + Insert(line, m, z) == Insert(front + line, |front| + m, z)
  {
    assert (front + line)[..|front| + m] == front + line[..m];
    assert (front + line)[|front| + m..] == line[m..];
  }

  lemma EnqueuedInserts(q: Queue, b: Bounds, env: Envelope, delay: real, now: real) returns (n: nat)
    ensures n <= |Line(q)| && Line(Enqueued(q, b, env, delay, now)) == Insert(Line(q), n, env)
  {
    if delay > 0.0 {
      n := PutInserts(q, env, delay, now);
    } else {
      n := |q.ready|;
      assert Line(q)[..n] == q.ready && Line(q)[n..] == Envelopes(q.heap);
    }
  }

  lemma PromotedLine(q: Queue, now: real)
    ensures Line(Promoted(q, now)) == Line(q)
  {
    var n := DueCount(q.heap, now);
    SplitEnvelopes(q.heap, n);
    Associate(q.ready, Envelopes(q.heap[..n]), Envelopes(q.heap[n..]));
  }

  lemma Associate(a: seq<Envelope>, b: seq<Envelope>, c: seq<Envelope>)
    ensures a + b + c == a + (b + c)
  {
  }

  lemma SplitEnvelopes(heap: seq<Entry>, n: nat)
    requires n <= |heap|
    ensures Envelopes(heap) == Envelopes(heap[..n]) + Envelopes(heap[n..])
  {
  }

  /** A reservation takes the head of the line, or finds nothing due. */
  lemma ReservedTakesHead(q: Queue, b: Bounds, now: real)
    ensures var r := Reserved(q, b, now);
            if r.1.None? then Line(r.0) == Line(q)
            else Line(q) != [] && r.1.value == Line(q)[0] && Line(r.0) == Line(q)[1..]
  {
    PromotedLine(q, now);
    var r := Promoted(q, now);
    if r.ready != [] {
      assert Line(r)[1..] == r.ready[1..] + Envelopes(r.heap);
    }
  }

  lemma SettledInserts(q: Queue, b: Bounds, env: Envelope, s: Settlement, now: real) returns (n: nat)
    ensures n <= |Line(q)|
    ensures Line(Settled(q, b, env, s, now)) ==
            if s.Retry? then Insert(Line(q), n, Failed(env, s.error)) else Line(q)
  {
    n := 0;
    if s.Retry? {
      n := PutInserts(q, Failed(env, s.error), if s.delay as real < 0.0 then 0.0 else s.delay as real, now);
    }
  }

  // ------------------------------------------------------------------ conservation

  function Ids(envs: seq<Envelope>): multiset<string> {
    multiset(seq(|envs|, i requires 0 <= i < |envs| => envs[i].id))
  }

  /** Every enqueued task is in exactly one place: in line, in flight, succeeded or buried. */
  ghost predicate Conserved(s: System) {
    Ids(Line(s.q)) + Ids(s.inFlight) + s.succeeded + s.buried == s.enqueued
  }

  lemma IdsConcat(a: seq<Envelope>, b: seq<Envelope>)
    ensures Ids(a + b) == Ids(a) + Ids(b)
  {
    var c := a + b;
    var ia := seq(|a|, i requires 0 <= i < |a| => a[i].id);
    var ib := seq(|b|, i requires 0 <= i < |b| => b[i].id);
    assert seq(|c|, i requires 0 <= i < |c| => c[i].id) == ia + ib;
  }

  lemma IdsOne(env: Envelope)
    ensures Ids([env]) == multiset{env.id}
  {
    assert seq(1, i requires 0 <= i < 1 => [env][i].id) == [env.id];
  }

  lemma IdsInsert(line: seq<Envelope>, n: nat, z: Envelope)
    requires n <= |line|
    ensures Ids(Insert(line, n, z)) == Ids(line) + multiset{z.id}
  {
    assert line == line[..n] + line[n..];
    IdsConcat(line[..n], line[n..]);
    IdsConcat(line[..n] + [z], line[n..]);
    IdsConcat(line[..n], [z]);
    IdsOne(z);
  }

  lemma IdsRemove(line: seq<Envelope>, i: nat)
    requires i < |line|
    ensures Ids(line) == Ids(line[..i] + line[i + 1..]) + multiset{line[i].id}
  {
    var rest := line[..i] + line[i + 1..];
    assert rest[..i] == line[..i] && rest[i..] == line[i + 1..];
    assert line == Insert(rest, i, line[i]);
    IdsInsert(rest, i, line[i]);
  }

  /** Moving one id from the line into flight. */
  lemma Depart(line: multiset<string>, flight: multiset<string>, rest: multiset<string>, id: string)
    requires id in line
    ensures line + flight + rest == (line - multiset{id}) + (flight + multiset{id}) + rest
  {
  }

  lemma ReserveConserves(s: System, b: Bounds, p: Policy, now: real)
    requires Conserved(s)
    ensures Conserved(Act(s, b, p, Reserve(now)))
  {
    ReservedTakesHead(s.q, b, now);
    var r := Reserved(s.q, b, now);
    if r.1.Some? {
      var env, line := r.1.value, Line(s.q);
      assert Ids(line) == Ids(line[1..]) + multiset{env.id} by {
        IdsRemove(line, 0);
        assert line[..0] + line[1..] == line[1..];
      }
      IdsConcat(s.inFlight, [env]);
      IdsOne(env);
      Depart(Ids(line), Ids(s.inFlight), s.succeeded + s.buried, env.id);
    }
  }

  lemma FinishConserves(s: System, b: Bounds, i: nat, settlement: Settlement, now: real)
    requires Conserved(s) && i < |s.inFlight|
    ensures Conserved(Finished(s, b, i, settlement, now))
  {
    var env := s.inFlight[i];
    var t := Finished(s, b, i, settlement, now);
    var n := SettledInserts(s.q, b, env, settlement, now);
    assert Ids(s.inFlight) == Ids(t.inFlight) + multiset{env.id} by {
      IdsRemove(s.inFlight, i);
    }
    if settlement.Retry? {
      IdsInsert(Line(s.q), n, Failed(env, settlement.error));
    }
    Arrive(Ids(Line(s.q)), Ids(t.inFlight), s.succeeded, s.buried, env.id);
  }

  /** One id in flight may land in the line, with the successes or with the dead. */
  lemma Arrive(line: multiset<string>, flight: multiset<string>,
               succeeded: multiset<string>, buried: multiset<string>, id: string)
    ensures line + (flight + multiset{id}) + succeeded + buried
         == (line + multiset{id}) + flight + succeeded + buried
         == line + flight + (succeeded + multiset{id}) + buried
         == line + flight + succeeded + (buried + multiset{id})
  {
  }

  lemma ActConserves(s: System, b: Bounds, p: Policy, a: Action)
    requires Conserved(s)
    ensures Conserved(Act(s, b, p, a))
  {
    match a
    case Enqueue(env, delay, now) =>
      var n := EnqueuedInserts(s.q, b, env, delay, now);
      IdsInsert(Line(s.q), n, env);
    case Reserve(now) => ReserveConserves(s, b, p, now);
    case Finish(i, outcome, now) =>
      if i < |s.inFlight| { FinishConserves(s, b, i, Decide(p, s.inFlight[i], outcome), now); }
    case Inspect(now) => PromotedLine(s.q, now);
  }

  // ------------------------------------------------------------------ the bounded tables

  /** The tables hold what their unbounded histories, cut once, would hold. */
  ghost predicate TablesAgree(s: System, b: Bounds) {
    s.q.status == Last(Latest(s.updates), b.status) && s.q.dead == Last(s.deaths, b.dead)
  }

  lemma ActTables(s: System, b: Bounds, p: Policy, a: Action)
    requires b.Valid() && TablesAgree(s, b)
    ensures TablesAgree(Act(s, b, p, a), b)
  {
    match a
    case Enqueue(env, _, _) =>
      TableTracksHistory(s.updates, RecordOf(env, if env.attempts != 0 then Retrying else Status.Queued), b.status);
    case Reserve(now) =>
      var r := Reserved(s.q, b, now);
      if r.1.Some? {
        TableTracksHistory(s.updates, RecordOf(r.1.value, Running), b.status);
      }
    case Finish(i, outcome, now) =>
      if i < |s.inFlight| {
        FinishTables(s, b, i, Decide(p, s.inFlight[i], outcome), now);
      }
    case Inspect(_) =>
  }

  lemma FinishTables(s: System, b: Bounds, i: nat, settlement: Settlement, now: real)
    requires b.Valid() && TablesAgree(s, b) && i < |s.inFlight|
    ensures TablesAgree(Finished(s, b, i, settlement, now), b)
  {
    var r := FinalRecord(s.inFlight[i], settlement);
    TableTracksHistory(s.updates, r, b.status);
    DequeTracksHistory(s.deaths, r, b.dead);
    SettledTables(s.q, b, s.inFlight[i], settlement, now);
  }

  lemma SettledTables(q: Queue, b: Bounds, env: Envelope, settlement: Settlement, now: real)
    ensures var t, r := Settled(q, b, env, settlement, now), FinalRecord(env, settlement);
            && t.status == Tracked(q.status, r, b.status)
            && t.dead == if settlement.Bury? then Appended(q.dead, r, b.dead) else q.dead
  {
  }

  lemma ActOrdered(s: System, b: Bounds, p: Policy, a: Action)
    requires Ordered(s.q)
    ensures Ordered(Act(s, b, p, a).q)
  {
    match a
    case Enqueue(env, delay, now) => StepsKeepOrder(s.q, b, env, delay, "", Ack, now);
    case Reserve(now) => PromotedOrdered(s.q, now);
    case Finish(i, outcome, now) =>
      if i < |s.inFlight| {
        StepsKeepOrder(s.q, b, s.inFlight[i], 0.0, "", Decide(p, s.inFlight[i], outcome), now);
      }
    case Inspect(now) => PromotedOrdered(s.q, now);
  }

  lemma PromotedOrdered(q: Queue, now: real)
    requires Ordered(q)
    ensures Ordered(Promoted(q, now))
  {
  }

  /** Over every run: nothing is lost or duplicated, the tables agree, the heap stays ordered. */
  lemma {:induction false} EveryRun(b: Bounds, p: Policy, actions: seq<Action>)
    requires b.Valid()
    ensures var s := Run(START, b, p, actions);
            Conserved(s) && TablesAgree(s, b) && Ordered(s.q)
  {
    EveryRunFrom(START, b, p, actions);
  }

  lemma {:induction false} EveryRunFrom(s: System, b: Bounds, p: Policy, actions: seq<Action>)
    requires b.Valid() && Conserved(s) && TablesAgree(s, b) && Ordered(s.q)
    ensures var t := Run(s, b, p, actions);
            Conserved(t) && TablesAgree(t, b) && Ordered(t.q)
    decreases |actions|
  {
    if actions != [] {
      ActConserves(s, b, p, actions[0]);
      ActTables(s, b, p, actions[0]);
      ActOrdered(s, b, p, actions[0]);
      EveryRunFrom(Act(s, b, p, actions[0]), b, p, actions[1..]);
    }
  }

  // ------------------------------------------------------------------ the order of service

  /** The envelopes reserved during a run, in order. */
  function Served(s: System, b: Bounds, p: Policy, actions: seq<Action>): seq<Envelope>
    decreases |actions|
  {
    if actions == [] then []
    else ServedBy(s, b, actions[0]) + Served(Act(s, b, p, actions[0]), b, p, actions[1..])
  }

  function ServedBy(s: System, b: Bounds, a: Action): seq<Envelope> {
    match a
    case Reserve(now) =>
      var (_, env) := Reserved(s.q, b, now);
      if env.None? then [] else [env.value]
    case _ => []
  }

  /** `x` stands in the line, before any `y`. */
  ghost predicate Ahead(line: seq<Envelope>, x: Envelope, y: Envelope) {
    exists i :: 0 <= i < |line| && line[i] == x && y !in line[..i + 1]
  }

  /** `y` is waiting, if anywhere, in the line: no thread holds its id, no other envelope bears it. */
  ghost predicate Waiting(s: System, y: Envelope) {
    && (forall e :: e in Line(s.q) && e.id == y.id ==> e == y)
    && (forall e :: e in s.inFlight ==> e.id != y.id)
  }

  lemma AheadInsert(line: seq<Envelope>, n: nat, z: Envelope, x: Envelope, y: Envelope)
    requires n <= |line| && z != y && Ahead(line, x, y)
    ensures Ahead(Insert(line, n, z), x, y)
  {
    var i :| 0 <= i < |line| && line[i] == x && y !in line[..i + 1];
    var l := Insert(line, n, z);
    var k := if i < n then i else i + 1;
    assert l[k] == x;
    forall j | 0 <= j < k + 1 ensures l[j] != y {
      assert j < n ==> l[j] == line[..i + 1][j];
      assert j > n ==> l[j] == line[..i + 1][j - 1];
    }
  }

  lemma AheadPop(line: seq<Envelope>, x: Envelope, y: Envelope)
    requires line != [] && Ahead(line, x, y)
    ensures line[0] != y && (line[0] == x || Ahead(line[1..], x, y))
  {
    var i :| 0 <= i < |line| && line[i] == x && y !in line[..i + 1];
    assert line[0] == line[..i + 1][0];
    if i > 0 {
      assert line[1..][i - 1] == x;
      assert forall j :: 0 <= j < i ==> line[1..][..i][j] == line[..i + 1][j + 1];
    }
  }

  lemma InsertMembers(line: seq<Envelope>, n: nat, z: Envelope)
    requires n <= |line|
    ensures forall e :: e in Insert(line, n, z) <==> e == z || e in line
  {
    assert line == line[..n] + line[n..];
  }

  lemma FinishInserts(s: System, b: Bounds, p: Policy, i: nat, outcome: Outcome, now: real, y: Envelope)
    returns (n: nat, z: Envelope)
    requires i < |s.inFlight| && Waiting(s, y)
    ensures var t := Act(s, b, p, Finish(i, outcome, now));
            && n <= |Line(s.q)| && z.id != y.id && Waiting(t, y)
            && (Line(t.q) == Line(s.q) || Line(t.q) == Insert(Line(s.q), n, z))
  {
    var env := s.inFlight[i];
    assert env in s.inFlight;
    var settlement := Decide(p, env, outcome);
    n := SettledInserts(s.q, b, env, settlement, now);
    z := if settlement.Retry? then Failed(env, settlement.error) else env;
    InsertMembers(Line(s.q), n, z);
    var t := Finished(s, b, i, settlement, now);
    assert forall e :: e in t.inFlight ==> e in s.inFlight;
    assert Waiting(t, y);
  }

  /** What a step that serves nobody does to the line: at most one insertion. */
  lemma OtherStepsInsert(s: System, b: Bounds, p: Policy, a: Action, y: Envelope) returns (n: nat, z: Envelope)
    requires !a.Reserve? && Waiting(s, y) && (a.Enqueue? ==> a.env.id != y.id)
    ensures var t := Act(s, b, p, a);
            && n <= |Line(s.q)| && z.id != y.id && Waiting(t, y)
            && (Line(t.q) == Line(s.q) || Line(t.q) == Insert(Line(s.q), n, z))
  {
    n, z := 0, y.(id := y.id + "'");
    match a
    case Enqueue(env, delay, now) =>
      n := EnqueuedInserts(s.q, b, env, delay, now);
      z := env;
      InsertMembers(Line(s.q), n, z);
    case Finish(i, outcome, now) =>
      if i < |s.inFlight| {
        n, z := FinishInserts(s, b, p, i, outcome, now, y);
      }
    case Inspect(now) => PromotedLine(s.q, now);
  }

  lemma ServiceStep(s: System, b: Bounds, p: Policy, a: Action, x: Envelope, y: Envelope)
    requires Ahead(Line(s.q), x, y) && Waiting(s, y)
    requires a.Enqueue? ==> a.env.id != y.id
    ensures y !in ServedBy(s, b, a)
    ensures x in ServedBy(s, b, a) || (Ahead(Line(Act(s, b, p, a).q), x, y) && Waiting(Act(s, b, p, a), y))
  {
    if a.Reserve? {
      ReservedTakesHead(s.q, b, a.now);
      AheadPop(Line(s.q), x, y);
      var r := Reserved(s.q, b, a.now);
      if r.1.Some? {
        WaitingAfterPop(s, Act(s, b, p, a), y);
      }
    } else {
      var n, z := OtherStepsInsert(s, b, p, a, y);
      AheadInsert(Line(s.q), n, z, x, y);
    }
  }

  /**
   Service order: of two envelopes in the line together, the one behind is never reserved
   first, whatever is enqueued, retried or settled meanwhile.
   */
  lemma {:induction false} ServedInOrder(
    s: System, b: Bounds, p: Policy, actions: seq<Action>, x: Envelope, y: Envelope, j: nat)
    requires Ahead(Line(s.q), x, y) && Waiting(s, y)
    requires forall a :: a in actions && a.Enqueue? ==> a.env.id != y.id
    requires j < |Served(s, b, p, actions)| && Served(s, b, p, actions)[j] == y
    ensures x in Served(s, b, p, actions)[..j]
    decreases |actions|
  {
    var a := actions[0];
    assert a in actions;
    var here, later := ServedBy(s, b, a), Served(Act(s, b, p, a), b, p, actions[1..]);
    ServiceStep(s, b, p, a, x, y);
    assert j >= |here|;
    assert (here + later)[..j] == here + later[..j - |here|];
    if x !in here {
      ServedInOrder(Act(s, b, p, a), b, p, actions[1..], x, y, j - |here|);
    }
  }

  lemma WaitingAfterPop(s: System, t: System, y: Envelope)
    requires Waiting(s, y) && Line(s.q) != [] && Line(s.q)[0] != y
    requires Line(t.q) == Line(s.q)[1..] && t.inFlight == s.inFlight + [Line(s.q)[0]]
    ensures Waiting(t, y)
  {
    assert Line(s.q)[0] in Line(s.q);
  }

  /** Looking at the queue moves what is due to the ready line, and nothing else. */
  lemma InspectionPromotes(s: System, b: Bounds, p: Policy, now: real)
    requires Ordered(s.q)
    ensures var t := Act(s, b, p, Inspect(now));
            && (forall e :: e in t.q.heap <==> e in s.q.heap && e.at > now)
            && Line(t.q) == Line(s.q) && t.inFlight == s.inFlight && t.q.status == s.q.status
  {
    PromotionIsExact(s.q, now);
    PromotedLine(s.q, now);
  }

  /** The heap order is what decides that line: the smaller (time, number) stands ahead. */
  lemma HeapOrderIsLineOrder(q: Queue, i: nat, j: nat)
    requires Ordered(q) && i < |q.heap| && j < |q.heap|
    requires q.heap[i].at < q.heap[j].at || (q.heap[i].at == q.heap[j].at && q.heap[i].number < q.heap[j].number)
    requires q.heap[j].env !in q.ready
    requires forall k :: 0 <= k < |q.heap| && k != j ==> q.heap[k].env != q.heap[j].env
    ensures Ahead(Line(q), q.heap[i].env, q.heap[j].env)
  {
    assert j < i ==> Before(q.heap[j], q.heap[i]);
    var at := |q.ready| + i;
    assert Line(q)[at] == q.heap[i].env;
    forall k | 0 <= k < at + 1 ensures Line(q)[k] != q.heap[j].env {
      if k < |q.ready| { assert Line(q)[k] in q.ready; }
    }
  }

  /** A new envelope stands behind everything that is due no later. */
  lemma {:induction false} PushedBehind(heap: seq<Entry>, e: Entry, i: nat)
    requires Sorted(heap) && i < |heap| && heap[i].at <= e.at && heap[i].number < e.number
    requires forall k :: 0 <= k < |heap| ==> heap[k].env != e.env
    ensures |Push(heap, e)| > i && Push(heap, e)[i] == heap[i]
    ensures forall k :: 0 <= k <= i ==> Push(heap, e)[k].env != e.env
  {
    assert !Before(e, heap[0]) by {
      if i > 0 { assert Before(heap[0], heap[i]); }
    }
    if i > 0 {
      PushedBehind(heap[1..], e, i - 1);
    }
  }

  lemma PushedStands(q: Queue, pushed: Queue, e: Entry, i: nat)
    requires Ordered(q) && i < |q.heap| && q.heap[i].at <= e.at && e.number == q.number + 1
    requires e.env !in q.ready && forall k :: 0 <= k < |q.heap| ==> q.heap[k].env != e.env
    requires pushed.ready == q.ready && pushed.heap == Push(q.heap, e)
    ensures Ahead(Line(pushed), q.heap[i].env, e.env)
  {
    PushedBehind(q.heap, e, i);
    StandsInHeap(pushed, i, q.heap[i].env, e.env);
  }

  lemma NotInLine(q: Queue, y: Envelope)
    requires forall e :: e in Line(q) ==> e.id != y.id
    ensures y !in q.ready && forall k :: 0 <= k < |q.heap| ==> q.heap[k].env != y
  {
    HeapInLine(q);
    assert forall k :: 0 <= k < |q.heap| ==> q.heap[k] in q.heap;
  }

  lemma EnqueuedLater(s: System, b: Bounds, p: Policy, y: Envelope, delay: real, now: real)
    requires delay > 0.0
    ensures var q := Act(s, b, p, Enqueue(y, delay, now)).q;
            q.ready == s.q.ready && q.heap == Push(s.q.heap, Entry(now + delay, s.q.number + 1, y))
  {
  }

  /**
   Of two delayed tasks the one enqueued first stands ahead unless it is due later: equal times
   are served in the order of arrival.
   */
  lemma DelayedInOrder(s: System, b: Bounds, p: Policy, i: nat, y: Envelope, delay: real, now: real)
    requires Ordered(s.q) && delay > 0.0 && (forall e :: e in Line(s.q) ==> e.id != y.id)
    requires i < |s.q.heap| && s.q.heap[i].at <= now + delay
    ensures Ahead(Line(Act(s, b, p, Enqueue(y, delay, now)).q), s.q.heap[i].env, y)
  {
    NotInLine(s.q, y);
    EnqueuedLater(s, b, p, y, delay, now);
    PushedStands(s.q, Act(s, b, p, Enqueue(y, delay, now)).q, Entry(now + delay, s.q.number + 1, y), i);
  }

  lemma StandsInHeap(q: Queue, i: nat, x: Envelope, y: Envelope)
    requires i < |q.heap| && q.heap[i].env == x && y !in q.ready
    requires forall k :: 0 <= k <= i ==> q.heap[k].env != y
    ensures Ahead(Line(q), x, y)
  {
    var at := |q.ready| + i;
    assert Line(q)[at] == x;
    forall k | 0 <= k < at + 1 ensures Line(q)[k] != y {
      if k < |q.ready| { assert Line(q)[k] in q.ready; }
    }
  }

  /** A task enqueued without a delay stands behind the ready ones and ahead of the delayed. */
  lemma ReadyInOrder(s: System, b: Bounds, p: Policy, y: Envelope, delay: real, now: real)
    requires delay <= 0.0 && (forall e :: e in Line(s.q) ==> e.id != y.id)
    ensures var line := Line(Act(s, b, p, Enqueue(y, delay, now)).q);
            && (forall x :: x in s.q.ready ==> Ahead(line, x, y))
            && (forall e :: e in s.q.heap ==> e.env != y ==> Ahead(line, y, e.env) || e.env in s.q.ready)
  {
    var q := Act(s, b, p, Enqueue(y, delay, now)).q;
    HeapInLine(s.q);
    assert q.ready == s.q.ready + [y] && q.heap == s.q.heap;
    forall x | x in s.q.ready ensures Ahead(Line(q), x, y) {
      var i :| 0 <= i < |s.q.ready| && s.q.ready[i] == x;
      assert Line(q)[i] == x;
      assert forall k :: 0 <= k < i + 1 ==> Line(q)[k] == s.q.ready[k] && s.q.ready[k] in s.q.ready;
    }
    forall e | e in s.q.heap && e.env !in s.q.ready ensures Ahead(Line(q), y, e.env) {
      assert Line(q)[|s.q.ready|] == y;
      assert e.env in Line(s.q) && e.env != y;
      assert forall k :: 0 <= k < |s.q.ready| ==> Line(q)[k] == s.q.ready[k] && s.q.ready[k] in s.q.ready;
    }
  }

  // ------------------------------------------------------------------ not before its time

  function TimeOf(a: Action): real {
    a.now
  }

  /** `y` can only be in the heap, due at `due` or later. */
  ghost predicate Delayed(s: System, y: Envelope, due: real) {
    && Waiting(s, y) && y !in s.q.ready
    && forall e :: e in s.q.heap && e.env == y ==> e.at >= due
  }

  lemma {:induction false} PushMembers(heap: seq<Entry>, e: Entry)
    ensures forall x :: x in Push(heap, e) <==> x == e || x in heap
  {
    if heap != [] && !Before(e, heap[0]) {
      PushMembers(heap[1..], e);
    }
  }

  lemma PromotedDelayed(s: System, y: Envelope, due: real, now: real)
    requires Delayed(s, y, due) && now < due
    ensures Delayed(s.(q := Promoted(s.q, now)), y, due)
  {
    PromotedLine(s.q, now);
    var n := DueCount(s.q.heap, now);
    forall i | 0 <= i < n ensures Envelopes(s.q.heap[..n])[i] != y {
      assert s.q.heap[i] in s.q.heap;
    }
  }

  lemma ReserveDelayed(s: System, b: Bounds, p: Policy, now: real, y: Envelope, due: real)
    requires Delayed(s, y, due) && now < due
    ensures y !in ServedBy(s, b, Reserve(now)) && Delayed(Act(s, b, p, Reserve(now)), y, due)
  {
    PromotedDelayed(s, y, due, now);
    var r := Promoted(s.q, now);
    ReservedTakesHead(s.q, b, now);
    if r.ready != [] {
      assert r.ready[0] in r.ready;
      PromotedLine(s.q, now);
      assert Line(s.q)[0] == r.ready[0];
      WaitingAfterPop(s, Act(s, b, p, Reserve(now)), y);
    }
  }

  lemma FinishDelayed(s: System, b: Bounds, p: Policy, i: nat, outcome: Outcome, now: real, y: Envelope, due: real)
    requires Delayed(s, y, due) && i < |s.inFlight|
    ensures Delayed(Act(s, b, p, Finish(i, outcome, now)), y, due)
  {
    var n, z := FinishInserts(s, b, p, i, outcome, now, y);
    var env := s.inFlight[i];
    assert env in s.inFlight;
    var settlement := Decide(p, env, outcome);
    if settlement.Retry? {
      var delay := settlement.delay as real;
      PushMembers(s.q.heap, Entry(now + if delay < 0.0 then 0.0 else delay, s.q.number + 1,
                                  Failed(env, settlement.error)));
    }
  }

  lemma ActDelayed(s: System, b: Bounds, p: Policy, a: Action, y: Envelope, due: real)
    requires Delayed(s, y, due) && TimeOf(a) < due
    requires a.Enqueue? ==> a.env.id != y.id
    ensures y !in ServedBy(s, b, a) && Delayed(Act(s, b, p, a), y, due)
  {
    match a
    case Reserve(now) => ReserveDelayed(s, b, p, now, y, due);
    case Inspect(now) => PromotedDelayed(s, y, due, now);
    case Enqueue(env, delay, now) =>
      var n, z := OtherStepsInsert(s, b, p, a, y);
      PushMembers(s.q.heap, Entry(now + delay, s.q.number + 1, env));
    case Finish(i, outcome, now) =>
      if i < |s.inFlight| {
        FinishDelayed(s, b, p, i, outcome, now, y, due);
      }
  }

  /** No task is reserved before its available time, whatever else happens until then. */
  lemma {:induction false} NotBeforeDue(
    s: System, b: Bounds, p: Policy, actions: seq<Action>, y: Envelope, due: real)
    requires Delayed(s, y, due)
    requires forall a :: a in actions ==> TimeOf(a) < due && (a.Enqueue? ==> a.env.id != y.id)
    ensures y !in Served(s, b, p, actions)
    decreases |actions|
  {
    if actions != [] {
      assert actions[0] in actions;
      ActDelayed(s, b, p, actions[0], y, due);
      NotBeforeDue(Act(s, b, p, actions[0]), b, p, actions[1..], y, due);
    }
  }

  /** A fresh task enqueued with a delay waits that delay out. */
  lemma DelayIsHonoured(
    s: System, b: Bounds, p: Policy, y: Envelope, delay: real, t: real, actions: seq<Action>)
    requires delay > 0.0
    requires forall e :: e in Line(s.q) || e in s.inFlight ==> e.id != y.id
    requires forall a :: a in actions ==> TimeOf(a) < t + delay && (a.Enqueue? ==> a.env.id != y.id)
    ensures y !in Served(Act(s, b, p, Enqueue(y, delay, t)), b, p, actions)
  {
    var after := Act(s, b, p, Enqueue(y, delay, t));
    var n := EnqueuedInserts(s.q, b, y, delay, t);
    PushMembers(s.q.heap, Entry(t + delay, s.q.number + 1, y));
    HeapInLine(s.q);
    NotBeforeDue(after, b, p, actions, y, t + delay);
  }

  /** A task whose run failed waits its worker's backoff out before it runs again. */
  lemma BackoffIsHonoured(
    s: System, b: Bounds, p: Policy, i: nat, error: string, t: real, actions: seq<Action>)
    requires i < |s.inFlight| && Decide(p, s.inFlight[i], Raised(error)).Retry?
    requires forall j :: 0 <= j < |s.inFlight| && j != i ==> s.inFlight[j].id != s.inFlight[i].id
    requires forall e :: e in Line(s.q) ==> e.id != s.inFlight[i].id
    requires forall a :: a in actions ==>
               && TimeOf(a) < t + (Max(0, p.backoff) * Pow2(s.inFlight[i].attempts)) as real
               && (a.Enqueue? ==> a.env.id != s.inFlight[i].id)
    ensures Failed(s.inFlight[i], error) !in Served(Act(s, b, p, Finish(i, Raised(error), t)), b, p, actions)
  {
    var env := s.inFlight[i];
    var settlement := Decide(p, env, Raised(error));
    var y, due := Failed(env, error), t + settlement.delay as real;
    var after := Act(s, b, p, Finish(i, Raised(error), t));
    RetryInHeap(s, b, i, settlement, t);
    NotBeforeDue(after, b, p, actions, y, due);
  }

  lemma RetryInHeap(s: System, b: Bounds, i: nat, settlement: Settlement, t: real)
    requires i < |s.inFlight| && settlement.Retry? && settlement.delay >= 0
    requires forall j :: 0 <= j < |s.inFlight| && j != i ==> s.inFlight[j].id != s.inFlight[i].id
    requires forall e :: e in Line(s.q) ==> e.id != s.inFlight[i].id
    ensures Delayed(Finished(s, b, i, settlement, t), Failed(s.inFlight[i], settlement.error),
                    t + settlement.delay as real)
  {
    var y := Failed(s.inFlight[i], settlement.error);
    var n := SettledInserts(s.q, b, s.inFlight[i], settlement, t);
    OnlyInserted(s, n, y);
    RetryPushed(s, b, i, settlement, t);
  }

  /** Only the entry pushed carries the id that was nowhere in line. */
  lemma OnlyInserted(s: System, n: nat, y: Envelope)
    requires n <= |Line(s.q)| && forall e :: e in Line(s.q) ==> e.id != y.id
    ensures forall e :: e in Insert(Line(s.q), n, y) && e.id == y.id ==> e == y
  {
    InsertMembers(Line(s.q), n, y);
  }

  lemma RetryPushed(s: System, b: Bounds, i: nat, settlement: Settlement, t: real)
    requires i < |s.inFlight| && settlement.Retry? && settlement.delay >= 0
    requires forall e :: e in Line(s.q) ==> e.id != s.inFlight[i].id
    ensures var q, y := Finished(s, b, i, settlement, t).q, Failed(s.inFlight[i], settlement.error);
            && (forall e :: e in q.ready ==> e.id != y.id)
            && (forall e :: e in q.heap && e.env.id == y.id ==> e.env == y && e.at == t + settlement.delay as real)
            && exists e :: e in q.heap && e.env == y
  {
    PushMembers(s.q.heap, Entry(t + settlement.delay as real, s.q.number + 1, Failed(s.inFlight[i], settlement.error)));
    HeapInLine(s.q);
  }

  lemma HeapInLine(q: Queue)
    ensures forall e :: e in q.heap ==> e.env in Line(q)
    ensures forall e :: e in q.ready ==> e in Line(q)
  {
    forall e | e in q.heap ensures e.env in Line(q) {
      var i :| 0 <= i < |q.heap| && q.heap[i] == e;
      assert Line(q)[|q.ready| + i] == e.env;
    }
  }
}
