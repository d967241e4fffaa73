/**
 The in-process task queue: a FIFO of ready envelopes, a heap of delayed ones, a bounded
 dead-letter list and a bounded status table. The lock makes each method one atomic step;
 the time of each step is a parameter.
 */
module MemoryTaskQueue {
  import opened Common
  import opened Tasks

  /** A heap entry; the heap is kept as the list of its entries in the order they pop. */
  datatype Entry = Entry(at: real, number: nat, env: Envelope)

  predicate Before(a: Entry, b: Entry) {
    a.at < b.at || (a.at == b.at && a.number < b.number)
  }

  ghost predicate Sorted(heap: seq<Entry>) {
    forall i, j :: 0 <= i < j < |heap| ==> Before(heap[i], heap[j])
  }

  function Push(heap: seq<Entry>, e: Entry): seq<Entry> {
    if heap == [] || Before(e, heap[0]) then [e] + heap
    else [heap[0]] + Push(heap[1..], e)
  }

  function Envelopes(heap: seq<Entry>): (envs: seq<Envelope>)
    ensures |envs| == |heap|
    ensures forall i :: 0 <= i < |heap| ==> envs[i] == heap[i].env
  {
    seq(|heap|, i requires 0 <= i < |heap| => heap[i].env)
  }

  /** How many entries at the front of the heap are due. */
  function DueCount(heap: seq<Entry>, now: real): (n: nat)
    ensures n <= |heap|
    ensures forall i :: 0 <= i < n ==> heap[i].at <= now
    ensures n < |heap| ==> heap[n].at > now
  {
    if heap == [] || heap[0].at > now then 0 else 1 + DueCount(heap[1..], now)
  }

  // ------------------------------------------------------------------ bounded tables

  /** The last `n` elements, or all of them. */
  function Last<T>(s: seq<T>, n: nat): seq<T> {
    if |s| <= n then s else s[|s| - n..]
  }

  function Without(table: seq<Record>, id: string): (r: seq<Record>)
    ensures forall x :: x in r <==> x in table && x.id != id
  {
    if table == [] then []
    else if table[0].id == id then Without(table[1..], id)
    else [table[0]] + Without(table[1..], id)
  }

  /** One write to the status table: the record moves to the end, the oldest are evicted. */
  function Tracked(table: seq<Record>, r: Record, max: nat): seq<Record> {
    Last(Without(table, r.id) + [r], max)
  }

  /** Whatever the table shows for the record's task is the record. */
  predicate Only(table: seq<Record>, r: Record) {
    forall x :: x in table && x.id == r.id ==> x == r
  }

  /** The table shows this record for its task, as the newest one, and no other. */
  predicate Shows(table: seq<Record>, r: Record) {
    table != [] && table[|table| - 1] == r && Only(table, r)
  }

  lemma TrackedShows(table: seq<Record>, r: Record, max: nat)
    requires max > 0
    ensures Shows(Tracked(table, r, max), r) && |Tracked(table, r, max)| <= max
  {
    var full := Without(table, r.id) + [r];
    assert full[|full| - 1] == r;
    forall x | x in Tracked(table, r, max) && x.id == r.id ensures x == r {
      assert x in full;
    }
  }

  /** One append to the dead-letter deque. */
  function Appended(dead: seq<Record>, r: Record, max: nat): seq<Record> {
    Last(dead + [r], max)
  }

  predicate Mentions(records: seq<Record>, id: string) {
    exists r :: r in records && r.id == id
  }

  /** A history reduced to each id's last record, in the order of those last updates. */
  function Latest(history: seq<Record>): seq<Record> {
    if history == [] then []
    else if Mentions(history[1..], history[0].id) then Latest(history[1..])
    else [history[0]] + Latest(history[1..])
  }

  ghost predicate DistinctIds(table: seq<Record>) {
    forall i, j :: 0 <= i < j < |table| ==> table[i].id != table[j].id
  }

  ghost predicate LastUpdate(history: seq<Record>, i: int) {
    0 <= i < |history| && forall j :: i < j < |history| ==> history[j].id != history[i].id
  }

  /** `r` is some id's last record in the history. */
  ghost predicate IsLast(history: seq<Record>, r: Record) {
    exists i :: LastUpdate(history, i) && history[i] == r
  }

  lemma LastUpdateCons(head: Record, tail: seq<Record>, i: nat)
    requires i <= |tail|
    ensures LastUpdate([head] + tail, i) <==> if i == 0 then !Mentions(tail, head.id) else LastUpdate(tail, i - 1)
  {
    var history := [head] + tail;
    assert forall j :: 0 < j < |history| ==> history[j] == tail[j - 1];
    assert forall j :: 0 <= j < |tail| ==> tail[j] == history[j + 1];
  }

  lemma LastCons(head: Record, tail: seq<Record>, r: Record)
    ensures IsLast([head] + tail, r) <==> IsLast(tail, r) || (r == head && !Mentions(tail, head.id))
  {
    var history := [head] + tail;
    if i :| LastUpdate(history, i) && history[i] == r {
      LastUpdateCons(head, tail, i);
      assert i > 0 ==> LastUpdate(tail, i - 1) && tail[i - 1] == r;
    }
    if i :| LastUpdate(tail, i) && tail[i] == r {
      LastUpdateCons(head, tail, i + 1);
      assert history[i + 1] == r;
    }
    LastUpdateCons(head, tail, 0);
    assert history[0] == head;
  }

  lemma DistinctCons(head: Record, tail: seq<Record>)
    requires DistinctIds(tail) && !Mentions(tail, head.id)
    ensures DistinctIds([head] + tail)
  {
    assert forall j :: 0 <= j < |tail| ==> tail[j] in tail;
  }

  /** `Latest` taken apart at the first record. */
  lemma LatestHead(head: Record, tail: seq<Record>)
    ensures Latest([head] + tail) == if Mentions(tail, head.id) then Latest(tail) else [head] + Latest(tail)
  {
    assert ([head] + tail)[1..] == tail;
  }

  /** `Latest` means what it says: one record an id, its last one. */
  lemma {:induction false} LatestMeans(history: seq<Record>)
    ensures DistinctIds(Latest(history))
    ensures forall r :: r in Latest(history) <==> IsLast(history, r)
  {
    if history != [] {
      var head, tail := history[0], history[1..];
      assert history == [head] + tail;
      LatestMeans(tail);
      LatestHead(head, tail);
      forall r ensures r in Latest(history) <==> IsLast(history, r) {
        LastCons(head, tail, r);
      }
      if !Mentions(tail, head.id) {
        assert forall r :: r in Latest(tail) ==> r in tail;
        DistinctCons(head, Latest(tail));
      }
    }
  }

  /** `Without` taken apart at the first record. */
  lemma WithoutHead(head: Record, tail: seq<Record>, id: string)
    ensures Without([head] + tail, id) == if head.id == id then Without(tail, id) else [head] + Without(tail, id)
  {
    assert ([head] + tail)[1..] == tail;
  }

  lemma MentionsAppend(records: seq<Record>, r: Record, id: string)
    ensures Mentions(records + [r], id) <==> Mentions(records, id) || r.id == id
  {
    assert r in records + [r];
    assert forall x :: x in records ==> x in records + [r];
  }

  lemma {:induction false} LatestAppend(history: seq<Record>, r: Record)
    ensures Latest(history + [r]) == Without(Latest(history), r.id) + [r]
  {
    if history == [] {
      assert [] + [r] == [r] && [r][1..] == [];
    } else {
      var head, tail := history[0], history[1..];
      LatestAppend(tail, r);
      assert history == [head] + tail && history + [r] == [head] + (tail + [r]);
      LatestHead(head, tail);
      LatestHead(head, tail + [r]);
      MentionsAppend(tail, r, head.id);
      AppendBehind(head, Latest(tail), r);
    }
  }

  lemma AppendBehind(head: Record, latest: seq<Record>, r: Record)
    ensures Without([head] + latest, r.id) + [r]
         == if head.id == r.id then Without(latest, r.id) + [r] else [head] + (Without(latest, r.id) + [r])
  {
    WithoutHead(head, latest, r.id);
  }

  lemma {:induction false} WithoutLength(table: seq<Record>, id: string)
    requires DistinctIds(table)
    ensures |Without(table, id)| >= |table| - 1
  {
    if table != [] {
      if table[0].id == id {
        WithoutAbsent(table[1..], id);
      } else {
        WithoutLength(table[1..], id);
      }
    }
  }

  lemma LastSkipsFirst<T>(x: T, s: seq<T>, n: nat)
    requires n <= |s|
    ensures Last([x] + s, n) == Last(s, n)
  {
  }

  lemma {:induction false} WithoutLast(table: seq<Record>, id: string, n: nat)
    requires n > 0 && DistinctIds(table)
    ensures Last(Without(Last(table, n), id), n - 1) == Last(Without(table, id), n - 1)
  {
    if |table| > n {
      var head, tail := table[0], table[1..];
      assert table == [head] + tail;
      WithoutLast(tail, id, n);
      LastSkipsFirst(head, tail, n);
      WithoutHead(head, tail, id);
      WithoutLength(tail, id);
      LastSkipsFirst(head, Without(tail, id), n - 1);
    }
  }

  lemma {:induction false} WithoutAbsent(table: seq<Record>, id: string)
    requires forall i :: 0 <= i < |table| ==> table[i].id != id
    ensures Without(table, id) == table
  {
    if table != [] {
      WithoutAbsent(table[1..], id);
    }
  }

  /** Evicting as one goes keeps exactly what evicting once at the end would keep. */
  lemma TableTracksHistory(history: seq<Record>, r: Record, max: nat)
    requires max > 0
    ensures Tracked(Last(Latest(history), max), r, max) == Last(Latest(history + [r]), max)
  {
    var full := Latest(history);
    LatestMeans(history);
    LatestAppend(history, r);
    WithoutLast(full, r.id, max);
    LastOfAppend(Without(Last(full, max), r.id), r, max);
    LastOfAppend(Without(full, r.id), r, max);
  }

  lemma LastOfAppend<T>(s: seq<T>, x: T, n: nat)
    requires n > 0
    ensures Last(s + [x], n) == Last(s, n - 1) + [x]
  {
  }

  predicate IsTail<T(==)>(s: seq<T>, full: seq<T>) {
    |s| <= |full| && s == full[|full| - |s|..]
  }

  lemma TailOfTail<T>(s: seq<T>, full: seq<T>)
    requires IsTail(s, full) && s != []
    ensures IsTail(s[1..], full)
  {
  }

  lemma TailIsLast<T>(s: seq<T>, full: seq<T>, n: nat)
    requires IsTail(s, full) && Min(|full|, n) <= |s| <= n
    ensures s == Last(full, n)
  {
  }

  lemma DequeTracksHistory(deaths: seq<Record>, r: Record, max: nat)
    requires max > 0
    ensures Appended(Last(deaths, max), r, max) == Last(deaths + [r], max)
  {
    LastOfAppend(Last(deaths, max), r, max);
    LastOfAppend(deaths, r, max);
  }

  // ------------------------------------------------------------------ the queue as a value

  datatype Queue = Queue(ready: seq<Envelope>, heap: seq<Entry>, number: nat, dead: seq<Record>, status: seq<Record>)

  datatype Bounds = Bounds(dead: nat, status: nat) {
    predicate Valid() {
      dead > 0 && status > 0
    }
  }

  const EMPTY := Queue([], [], 0, [], [])

  function WithStatus(q: Queue, b: Bounds, env: Envelope, status: Status): Queue {
    q.(status := Tracked(q.status, RecordOf(env, status), b.status))
  }

  /** Puts an envelope into the heap, or behind the ready ones when it has no delay. */
  function Put(q: Queue, env: Envelope, delay: real, now: real): Queue {
    q.(number := q.number + 1, heap := Push(q.heap, Entry(now + delay, q.number + 1, env)))
  }

  function Enqueued(q: Queue, b: Bounds, env: Envelope, delay: real, now: real): Queue {
    var placed := if delay > 0.0 then Put(q, env, delay, now) else q.(ready := q.ready + [env]);
    WithStatus(placed, b, env, if env.attempts != 0 then Retrying else Status.Queued)
  }

  function Promoted(q: Queue, now: real): Queue {
    var n := DueCount(q.heap, now);
    q.(ready := q.ready + Envelopes(q.heap[..n]), heap := q.heap[n..])
  }

  /** The queue after a reservation, and the envelope reserved. */
  function Reserved(q: Queue, b: Bounds, now: real): (Queue, Option<Envelope>) {
    var p := Promoted(q, now);
    if p.ready == [] then (p, None)
    else (WithStatus(p.(ready := p.ready[1..]), b, p.ready[0], Running), Some(p.ready[0]))
  }

  function Acked(q: Queue, b: Bounds, env: Envelope): Queue {
    WithStatus(q, b, env, Succeeded)
  }

  function Retried(q: Queue, b: Bounds, env: Envelope, delay: real, error: string, now: real): Queue {
    var again := Failed(env, error);
    WithStatus(Put(q, again, if delay < 0.0 then 0.0 else delay, now), b, again, Retrying)
  }

  function Killed(q: Queue, b: Bounds, env: Envelope, error: string): Queue {
    var last := RecordOf(Buried(env, error), Dead);
    q.(dead := Appended(q.dead, last, b.dead), status := Tracked(q.status, last, b.status))
  }

  /** What a worker's settlement does to the queue. */
  function Settled(q: Queue, b: Bounds, env: Envelope, s: Settlement, now: real): Queue {
    match s
    case Ack => Acked(q, b, env)
    case Retry(delay, error) => Retried(q, b, env, delay as real, error, now)
    case Bury(error) => Killed(q, b, env, error)
  }

  // ------------------------------------------------------------------ the heap

  /** Pushing adds that entry and loses none. */
  lemma {:induction false} PushAdds(heap: seq<Entry>, e: Entry)
    ensures multiset(Push(heap, e)) == multiset(heap) + multiset{e}
  {
    if heap != [] && !Before(e, heap[0]) {
      PushAdds(heap[1..], e);
      assert heap == [heap[0]] + heap[1..];
    }
  }

  /** Pushing under a number not used before keeps the heap strictly ordered. */
  lemma {:induction false} PushSorted(heap: seq<Entry>, e: Entry)
    requires Sorted(heap) && forall i :: 0 <= i < |heap| ==> heap[i].number < e.number
    ensures Sorted(Push(heap, e))
    ensures forall x :: x in Push(heap, e) <==> x == e || x in heap
  {
    if heap != [] && !Before(e, heap[0]) {
      var tail := heap[1..];
      PushSorted(tail, e);
      forall i, j | 0 <= i < j < |Push(heap, e)| ensures Before(Push(heap, e)[i], Push(heap, e)[j]) {
        if i == 0 {
          assert Push(tail, e)[j - 1] in Push(tail, e);
        }
      }
    } else if heap != [] {
      forall j | 0 <= j < |heap| ensures Before(e, heap[j]) {
      }
    }
  }

  /** The heap is in strict pop order: no two entries tie, so envelopes are never compared. */
  ghost predicate Ordered(q: Queue) {
    Sorted(q.heap) && forall i :: 0 <= i < |q.heap| ==> q.heap[i].number <= q.number
  }

  lemma StepsKeepOrder(q: Queue, b: Bounds, env: Envelope, delay: real, error: string, s: Settlement, now: real)
    requires Ordered(q)
    ensures Ordered(Enqueued(q, b, env, delay, now))
    ensures Ordered(Promoted(q, now)) && Ordered(Reserved(q, b, now).0)
    ensures Ordered(Settled(q, b, env, s, now))
  {
    EnqueuedOrdered(q, b, env, delay, now);
    PromotedOrdered(q, b, now);
    SettledOrdered(q, b, env, s, now);
  }

  lemma EnqueuedOrdered(q: Queue, b: Bounds, env: Envelope, delay: real, now: real)
    requires Ordered(q)
    ensures Ordered(Enqueued(q, b, env, delay, now))
  {
    PutOrdered(q, env, delay, now);
  }

  lemma PromotedOrdered(q: Queue, b: Bounds, now: real)
    requires Ordered(q)
    ensures Ordered(Promoted(q, now)) && Ordered(Reserved(q, b, now).0)
  {
  }

  lemma SettledOrdered(q: Queue, b: Bounds, env: Envelope, s: Settlement, now: real)
    requires Ordered(q)
    ensures Ordered(Settled(q, b, env, s, now))
  {
    if s.Retry? {
      PutOrdered(q, Failed(env, s.error), if s.delay < 0 then 0.0 else s.delay as real, now);
    }
  }

  lemma PutOrdered(q: Queue, env: Envelope, delay: real, now: real)
    requires Ordered(q)
    ensures Ordered(Put(q, env, delay, now))
  {
    var e := Entry(now + delay, q.number + 1, env);
    PushSorted(q.heap, e);
    forall i | 0 <= i < |Push(q.heap, e)| ensures Push(q.heap, e)[i].number <= q.number + 1 {
      assert Push(q.heap, e)[i] in Push(q.heap, e);
    }
  }

  /** A promotion leaves only entries strictly in the future, and took only due ones. */
  lemma PromotionIsExact(q: Queue, now: real)
    requires Ordered(q)
    ensures forall e :: e in Promoted(q, now).heap <==> e in q.heap && e.at > now
  {
    var n := DueCount(q.heap, now);
    forall i | n <= i < |q.heap| ensures q.heap[i].at > now {
      if i > n { assert Before(q.heap[n], q.heap[i]); }
    }
    forall e ensures e in q.heap[n..] <==> e in q.heap && e.at > now {
      if e in q.heap && e.at > now {
        var i :| 0 <= i < |q.heap| && q.heap[i] == e;
        assert q.heap[n..][i - n] == e;
      }
    }
  }

  // ------------------------------------------------------------------ the class

  class MemoryTaskQueue {
    const bounds: Bounds
    var ready: seq<Envelope>
    var heap: seq<Entry>
    var number: nat
    var dead: seq<Record>
    var status: seq<Record>

    ghost function State(): Queue
      reads this
    {
      Queue(ready, heap, number, dead, status)
    }

    /** The status table ends with this record, and has no other of its task. */
    ghost predicate Newest(r: Record)
      reads this
    {
      bounds.Valid() ==> Shows(status, r) && |status| <= bounds.status
    }

    /** A bound that is missing or zero is replaced by the configured one. */
    constructor (statusMax: Option<nat>, deadMax: Option<nat>, configured: Bounds)
      requires configured.Valid()
      ensures State() == EMPTY && bounds.Valid()
      ensures bounds.status == if statusMax.Some? && statusMax.value > 0 then statusMax.value else configured.status
      ensures bounds.dead == if deadMax.Some? && deadMax.value > 0 then deadMax.value else configured.dead
    {
      bounds := Bounds(
        if deadMax.Some? && deadMax.value > 0 then deadMax.value else configured.dead,
        if statusMax.Some? && statusMax.value > 0 then statusMax.value else configured.status);
      ready, heap, number, dead, status := [], [], 0, [], [];
    }

    method SetStatus(env: Envelope, s: Status)
      modifies this`status
      ensures State() == WithStatus(old(State()), bounds, env, s)
      ensures Newest(Record(env.id, env.name, s, env.attempts, env.lastError))
    {
      Track(RecordOf(env, s));
      if bounds.Valid() {
        TrackedShows(old(status), RecordOf(env, s), bounds.status);
      }
    }

    /** Moves the task's record to the end and evicts the oldest ones. */
    method Track(r: Record)
      modifies this`status
      ensures status == Tracked(old(status), r, bounds.status)
    {
      var table := Without(status, r.id) + [r];
      ghost var full := table;
      while |table| > bounds.status
        invariant IsTail(table, full) && |table| >= Min(|full|, bounds.status)
      {
        TailOfTail(table, full);
        table := table[1..];
      }
      TailIsLast(table, full, bounds.status);
      status := table;
    }

    method PushDelayed(env: Envelope, delay: real, now: real)
      modifies this`heap, this`number
      ensures State() == Put(old(State()), env, delay, now) && number == old(number) + 1
      ensures multiset(heap) == multiset(old(heap)) + multiset{Entry(now + delay, number, env)}
    {
      number := number + 1;
      PushAdds(heap, Entry(now + delay, number, env));
      heap := Push(heap, Entry(now + delay, number, env));
    }

    method Enqueue(env: Envelope, delay: real, now: real)
      modifies this
      ensures State() == Enqueued(old(State()), bounds, env, delay, now)
      ensures delay <= 0.0 ==> ready == old(ready) + [env] && heap == old(heap)
      ensures delay > 0.0 ==>
                ready == old(ready) && multiset(heap) == multiset(old(heap)) + multiset{Entry(now + delay, number, env)}
      ensures Newest(Record(env.id, env.name, if env.attempts == 0 then Status.Queued else Retrying,
                            env.attempts, env.lastError))
    {
      if delay > 0.0 {
        PushDelayed(env, delay, now);
      } else {
        ready := ready + [env];
      }
      SetStatus(env, if env.attempts != 0 then Retrying else Status.Queued);
    }

    method PromoteDue(now: real)
      modifies this`ready, this`heap
      ensures State() == Promoted(old(State()), now)
    {
      ghost var all, front := heap, ready;
      ghost var popped := 0;
      while heap != [] && heap[0].at <= now
        invariant popped <= |all| && heap == all[popped..]
        invariant DueCount(all, now) == popped + DueCount(heap, now)
        invariant ready == front + Envelopes(all[..popped])
        decreases |heap|
      {
        EnvelopesAppend(all, popped);
        assert heap[1..] == all[popped + 1..];
        ready, heap := ready + [heap[0].env], heap[1..];
        popped := popped + 1;
      }
    }

    /** One pass of `reserve`'s loop; between passes the lock is released for other steps. */
    method TryReserve(now: real) returns (reserved: Option<Envelope>)
      modifies this
      ensures (State(), reserved) == Reserved(old(State()), bounds, now)
      ensures reserved.Some? ==> Newest(Record(reserved.value.id, reserved.value.name, Running,
                                               reserved.value.attempts, reserved.value.lastError))
    {
      PromoteDue(now);
      if ready == [] {
        return None;
      }
      var env := ready[0];
      ready := ready[1..];
      SetStatus(env, Running);
      return Some(env);
    }

    method Ack(env: Envelope)
      modifies this
      ensures State() == Acked(old(State()), bounds, env) && State() == old(State()).(status := status)
      ensures Newest(Record(env.id, env.name, Succeeded, env.attempts, env.lastError))
    {
      SetStatus(env, Succeeded);
    }

    method Retry(env: Envelope, delay: real, error: string, now: real)
      modifies this
      ensures State() == Retried(old(State()), bounds, env, delay, error, now)
      ensures ready == old(ready) && dead == old(dead)
      ensures multiset(heap) == multiset(old(heap)) + multiset{
                Entry(now + if delay > 0.0 then delay else 0.0, number,
                      Envelope(env.id, env.name, env.body, env.attempts + 1, env.maxRetries,
                               if error == "" then None else Some(error)))}
      ensures Newest(Record(env.id, env.name, Retrying, env.attempts + 1, if error == "" then None else Some(error)))
    {
      var again := Failed(env, error);
      PushDelayed(again, if delay < 0.0 then 0.0 else delay, now);
      SetStatus(again, Retrying);
    }

    method Kill(env: Envelope, error: string)
      modifies this
      ensures State() == Killed(old(State()), bounds, env, error)
      ensures ready == old(ready) && heap == old(heap)
      ensures bounds.Valid() ==>
                && dead != [] && |dead| == Min(|old(dead)| + 1, bounds.dead)
                && dead[|dead| - 1] == Record(env.id, env.name, Dead, env.attempts, if error == "" then None else Some(error))
      ensures Newest(Record(env.id, env.name, Dead, env.attempts, if error == "" then None else Some(error)))
    {
      var last := Buried(env, error);
      dead := dead + [RecordOf(last, Dead)];
      if |dead| > bounds.dead {
        dead := dead[|dead| - bounds.dead..];
      }
      SetStatus(last, Dead);
    }

    /** The record kept for a task id, if any. */
    method GetStatus(id: string) returns (r: Option<Record>)
      ensures r.Some? ==> r.value in status && r.value.id == id
      ensures r.None? ==> forall x :: x in status ==> x.id != id
    {
      for i := 0 to |status|
        invariant forall j :: 0 <= j < i ==> status[j].id != id
      {
        if status[i].id == id {
          return Some(status[i]);
        }
      }
      return None;
    }
  }

  lemma EnvelopesAppend(heap: seq<Entry>, n: nat)
    requires n < |heap|
    ensures Envelopes(heap[..n + 1]) == Envelopes(heap[..n]) + [heap[n].env]
  {
  }
}
