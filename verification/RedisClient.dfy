/** The Redis queue's client methods, command by command, and the steps they add up to. */
module RedisClient {
  import opened Common
  import opened Tasks
  import opened RedisTaskQueue

  /** Entries one promotion, and one reclaim, asks the server for. */
  const PROMOTE_BATCH := 100
  const RECLAIM_BATCH := 10
  /** Seconds between two promotions of one client. */
  const PROMOTE_INTERVAL := 1.0

  /**
   The due members are moved one by one, if still there; one whose XADD fails is put back for
   five seconds later.
   */
  function PromotedSome(st: Store, due: seq<Envelope>, posted: seq<bool>, now: real): Store
    requires |posted| == |due|
    decreases |due|
  {
    if due == [] then st
    else if due[0] !in st.delayed then PromotedSome(st, due[1..], posted[1..], now)
    else
      var taken := Withdrawn(st, due[0]);
      PromotedSome(if posted[0] then Posted(taken, due[0]) else Scheduled(taken, due[0], now + 5.0),
                   due[1..], posted[1..], now)
  }

  function PromotedAll(st: Store, due: seq<Envelope>): Store
    decreases |due|
  {
    if due == [] then st
    else if due[0] in st.delayed then PromotedAll(Posted(Withdrawn(st, due[0]), due[0]), due[1..])
    else PromotedAll(st, due[1..])
  }

  /** Without failures that is a plain promotion. */
  lemma {:induction false} AllPosted(st: Store, due: seq<Envelope>, posted: seq<bool>, now: real)
    requires |posted| == |due| && forall i :: 0 <= i < |posted| ==> posted[i]
    ensures PromotedSome(st, due, posted, now) == PromotedAll(st, due)
    decreases |due|
  {
    if due != [] {
      AllPosted(if due[0] in st.delayed then Posted(Withdrawn(st, due[0]), due[0]) else st, due[1..], posted[1..], now);
    }
  }

  type Statuses = map<string, Record>

  function Noted(statuses: Statuses, env: Envelope, status: Status): Statuses {
    statuses[env.id := RecordOf(env, status)]
  }

  /** The store, the statuses, and how many of the claimed messages were there to be retried. */
  datatype Tally = Tally(store: Store, statuses: Statuses, count: nat)

  function ReclaimedOne(r: Tally, token: nat, backoff: int, now: real): Tally {
    if token !in r.store.stream then r
    else
      Tally(Reclaimed(r.store, token, backoff, now),
              Noted(r.statuses, Failed(r.store.stream[token], RECLAIM_ERROR), Retrying), r.count + 1)
  }

  function ReclaimedEach(r: Tally, tokens: seq<nat>, backoff: int, now: real): Tally
    decreases |tokens|
  {
    if tokens == [] then r else ReclaimedEach(ReclaimedOne(r, tokens[0], backoff, now), tokens[1..], backoff, now)
  }

  function ReclaimedAll(st: Store, tokens: seq<nat>, backoff: int, now: real): Store
    decreases |tokens|
  {
    if tokens == [] then st
    else if tokens[0] in st.stream then ReclaimedAll(Reclaimed(st, tokens[0], backoff, now), tokens[1..], backoff, now)
    else ReclaimedAll(st, tokens[1..], backoff, now)
  }

  lemma {:induction false} ReclaimStores(r: Tally, tokens: seq<nat>, backoff: int, now: real)
    ensures ReclaimedEach(r, tokens, backoff, now).store == ReclaimedAll(r.store, tokens, backoff, now)
    decreases |tokens|
  {
    if tokens != [] {
      ReclaimStores(ReclaimedOne(r, tokens[0], backoff, now), tokens[1..], backoff, now);
    }
  }

  /** Claimed messages that are all there, and claimed once, are all counted. */
  lemma {:induction false} ReclaimCounts(r: Tally, tokens: seq<nat>, backoff: int, now: real)
    requires Distinct(tokens) && forall t :: t in tokens ==> t in r.store.stream
    ensures ReclaimedEach(r, tokens, backoff, now).count == r.count + |tokens|
    decreases |tokens|
  {
    if tokens != [] {
      var next, rest := ReclaimedOne(r, tokens[0], backoff, now), tokens[1..];
      forall t | t in rest ensures t in next.store.stream {
        var i :| 0 <= i < |rest| && rest[i] == t;
        assert rest[i] == tokens[i + 1] && tokens[i + 1] != tokens[0];
      }
      ReclaimCounts(next, rest, backoff, now);
    }
  }

  /** The record the dead-letter list keeps: the error is stored even when it is empty. */
  function DeadRecord(env: Envelope, error: string): Record {
    RecordOf(Buried(env, error), Dead).(lastError := Some(error))
  }

  function Newest(letters: seq<Record>, max: nat): seq<Record> {
    if |letters| <= max then letters else letters[..max]
  }

  class Client {
    const backoff: int
    const deadMax: nat
    var store: Store
    var deadLetters: seq<Record>  // newest first
    var statuses: Statuses
    var lastPromote: real

    constructor (backoff: int, deadMax: nat)
      ensures this.backoff == backoff && this.deadMax == deadMax
      ensures store == EMPTY && deadLetters == [] && statuses == map[] && lastPromote == 0.0
    {
      this.backoff, this.deadMax := backoff, deadMax;
      store, deadLetters, statuses, lastPromote := EMPTY, [], map[], 0.0;
    }

    // ---------------------------------------------------------------- server commands

    method XAdd(env: Envelope)
      modifies this`store
      ensures store == Posted(old(store), env)
    {
      store := store.(stream := store.stream[store.next := env], next := store.next + 1);
    }

    method XAck(token: nat)
      modifies this`store
      ensures store == old(store).(pending := old(store).pending - {token})
    {
      store := store.(pending := store.pending - {token});
    }

    method XDel(token: nat)
      modifies this`store
      ensures store == old(store).(stream := old(store).stream - {token})
    {
      store := store.(stream := store.stream - {token});
    }

    method ZAdd(env: Envelope, at: real)
      modifies this`store
      ensures store == Scheduled(old(store), env, at)
    {
      store := store.(delayed := store.delayed[env := at]);
    }

    method ZRem(env: Envelope) returns (removed: nat)
      modifies this`store
      ensures removed == if env in old(store).delayed then 1 else 0
      ensures store == Withdrawn(old(store), env)
    {
      removed := if env in store.delayed then 1 else 0;
      store := store.(delayed := store.delayed - {env});
    }

    /** Hands the group's next message to this consumer, if there is one. */
    method XReadGroup(now: real) returns (token: Option<nat>)
      modifies this`store
      ensures token.None? ==> store == old(store) && forall t :: t in store.stream ==> t < store.delivered
      ensures token.Some? ==> IsNext(old(store), token.value) && store == Delivered(old(store), token.value, now)
    {
      if u :| u in store.stream && u >= store.delivered {
        ghost var first := FirstUndelivered(store, u);
        var t :| t in store.stream && IsNext(store, t);
        store := store.(delivered := t + 1, pending := store.pending[t := now]);
        return Some(t);
      }
      return None;
    }

    method LPush(record: Record)
      modifies this`deadLetters
      ensures deadLetters == [record] + old(deadLetters)
    {
      deadLetters := [record] + deadLetters;
    }

    method LTrim(max: nat)
      modifies this`deadLetters
      ensures deadLetters == Newest(old(deadLetters), max)
    {
      if |deadLetters| > max {
        deadLetters := deadLetters[..max];
      }
    }

    method WriteStatus(env: Envelope, status: Status)
      modifies this`statuses
      ensures statuses == Noted(old(statuses), env, status)
    {
      statuses := statuses[env.id := RecordOf(env, status)];
    }

    // ---------------------------------------------------------------- client methods

    method Enqueue(env: Envelope, delay: real, now: real)
      modifies this`store, this`statuses
      ensures store == if delay > 0.0 then Scheduled(old(store), env, now + delay) else Posted(old(store), env)
      ensures statuses == old(statuses)[env.id := Record(
                env.id, env.name, if env.attempts == 0 then Status.Queued else Retrying, env.attempts, env.lastError)]
    {
      if delay > 0.0 {
        ZAdd(env, now + delay);
      } else {
        XAdd(env);
      }
      WriteStatus(env, if env.attempts != 0 then Retrying else Status.Queued);
    }

    method Ack(token: nat, env: Envelope)
      modifies this`store, this`statuses
      ensures store == Removed(old(store), token) && token !in store.stream && token !in store.pending
      ensures statuses == old(statuses)[env.id := Record(env.id, env.name, Succeeded, env.attempts, env.lastError)]
    {
      XAck(token);
      XDel(token);
      WriteStatus(env, Succeeded);
    }

    /** The task leaves the stream for the front of the bounded dead-letter list. */
    method Kill(token: nat, env: Envelope, error: string)
      modifies this`store, this`deadLetters, this`statuses
      ensures store == Removed(old(store), token) && token !in store.stream && token !in store.pending
      ensures statuses == old(statuses)[env.id := Record(env.id, env.name, Dead, env.attempts,
                                                         if error == "" then None else Some(error))]
      ensures |deadLetters| == Min(|old(deadLetters)| + 1, deadMax)
      ensures deadMax > 0 ==>
                && deadLetters[0] == Record(env.id, env.name, Dead, env.attempts, Some(error))
                && deadLetters[1..] == old(deadLetters)[..|deadLetters| - 1]
    {
      XAck(token);
      XDel(token);
      LPush(DeadRecord(env, error));
      LTrim(deadMax);
      WriteStatus(Buried(env, error), Dead);
    }

    method Retry(token: nat, env: Envelope, delay: real, error: string, now: real)
      modifies this`store, this`statuses
      ensures store == Rescheduled(old(store), token, env, delay, error, now)
      ensures token !in store.stream && token !in store.pending
      ensures store.delayed == old(store).delayed[
                Envelope(env.id, env.name, env.body, env.attempts + 1, env.maxRetries,
                         if error == "" then None else Some(error)) := now + if delay > 0.0 then delay else 0.0]
      ensures statuses == old(statuses)[env.id := Record(env.id, env.name, Retrying, env.attempts + 1,
                                                         if error == "" then None else Some(error))]
    {
      var again := Failed(env, error);
      XAck(token);
      XDel(token);
      ZAdd(again, now + NonNegative(delay));
      WriteStatus(again, Retrying);
    }

    /**
     `due` is the server's answer to the range query, of which other clients may have taken some
     since; `posted` says which XADDs succeed.
     */
    method PromoteDelayed(due: seq<Envelope>, posted: seq<bool>, now: real)
      requires |posted| == |due|
      modifies this`store, this`lastPromote
      ensures now - old(lastPromote) < PROMOTE_INTERVAL ==> store == old(store) && lastPromote == old(lastPromote)
      ensures now - old(lastPromote) >= PROMOTE_INTERVAL ==>
                store == PromotedSome(old(store), due, posted, now) && lastPromote == now
    {
      if now - lastPromote < PROMOTE_INTERVAL {
        return;
      }
      lastPromote := now;
      for i := 0 to |due|
        invariant PromotedSome(store, due[i..], posted[i..], now) == PromotedSome(old(store), due, posted, now)
        invariant lastPromote == now
      {
        ghost var before := store;
        var removed := ZRem(due[i]);
        assert due[i..][1..] == due[i + 1..] && posted[i..][1..] == posted[i + 1..];
        if removed == 1 {
          if posted[i] {
            XAdd(due[i]);
          } else {
            ZAdd(due[i], now + 5.0);
          }
        } else {
          assert store.delayed == before.delayed;
        }
      }
    }

    /** Promotes first, then takes the next message, which stays pending until it is settled. */
    method Reserve(due: seq<Envelope>, posted: seq<bool>, now: real) returns (held: Option<Held>)
      requires |posted| == |due|
      modifies this`store, this`lastPromote, this`statuses
      ensures var p := if now - old(lastPromote) < PROMOTE_INTERVAL then old(store)
                       else PromotedSome(old(store), due, posted, now);
              match held
              case None => store == p && statuses == old(statuses) && forall t :: t in p.stream ==> t < p.delivered
              case Some(h) =>
                && IsNext(p, h.token) && h.env == p.stream[h.token] && store == Delivered(p, h.token, now)
                && statuses == old(statuses)[h.env.id := Record(h.env.id, h.env.name, Running, h.env.attempts, h.env.lastError)]
    {
      PromoteDelayed(due, posted, now);
      var token := XReadGroup(now);
      if token.None? {
        return None;
      }
      var env := store.stream[token.value];
      WriteStatus(env, Running);
      return Some(Held(token.value, env));
    }

    /** `tokens` is what the server's claim returned: stale pending messages of any owner. */
    method ReclaimStale(tokens: seq<nat>, now: real) returns (reclaimed: nat)
      modifies this`store, this`statuses
      ensures Tally(store, statuses, reclaimed)
           == ReclaimedEach(Tally(old(store), old(statuses), 0), tokens, backoff, now)
      ensures store == ReclaimedAll(old(store), tokens, backoff, now)
    {
      reclaimed := 0;
      ghost var start := Tally(store, statuses, 0);
      for i := 0 to |tokens|
        invariant ReclaimedEach(Tally(store, statuses, reclaimed), tokens[i..], backoff, now)
               == ReclaimedEach(start, tokens, backoff, now)
      {
        assert tokens[i..][1..] == tokens[i + 1..];
        if tokens[i] in store.stream {
          reclaimed := reclaimed + 1;
          Retry(tokens[i], store.stream[tokens[i]], ReclaimDelay(backoff), RECLAIM_ERROR, now);
        }
      }
      ReclaimStores(start, tokens, backoff, now);
    }
  }

  // ------------------------------------------------------------------ batches are runs of steps

  ghost predicate Distinct<T>(s: seq<T>) {
    forall i, j :: 0 <= i < j < |s| ==> s[i] != s[j]
  }

  function PromoteSteps(due: seq<Envelope>, posted: seq<bool>): seq<Step>
    requires |posted| == |due|
  {
    seq(|due|, i requires 0 <= i < |due| => Promote(due[i], posted[i]))
  }

  function ReclaimSteps(tokens: seq<nat>): seq<Step> {
    seq(|tokens|, i requires 0 <= i < |tokens| => Reclaim(tokens[i]))
  }

  /** A promotion without interference is one step for each due task, and moves exactly those. */
  lemma {:induction false} PromotionIsARun(c: Config, s: State, due: seq<Envelope>, posted: seq<bool>)
    requires |posted| == |due| && Distinct(due)
    requires forall i :: 0 <= i < |due| ==> due[i] in s.store.delayed && s.store.delayed[due[i]] <= s.now
    ensures IsRun(c, s, PromoteSteps(due, posted))
    ensures EndOf(c, s, PromoteSteps(due, posted)) == s.(store := PromotedSome(s.store, due, posted, s.now))
    decreases |due|
  {
    if due == [] {
      assert PromoteSteps(due, posted) == [];
    } else {
      var t := After(c, s, Promote(due[0], posted[0]));
      assert PromoteSteps(due, posted)[1..] == PromoteSteps(due[1..], posted[1..]);
      forall i | 0 <= i < |due| - 1 ensures due[1..][i] in t.store.delayed && t.store.delayed[due[1..][i]] <= t.now {
        assert due[1..][i] == due[i + 1] && due[i + 1] != due[0];
      }
      PromotionIsARun(c, t, due[1..], posted[1..]);
    }
  }

  lemma {:induction false} ReclaimIsARun(c: Config, s: State, tokens: seq<nat>)
    requires Distinct(tokens)
    requires forall i :: 0 <= i < |tokens| ==> Enabled(c, s, Reclaim(tokens[i]))
    ensures IsRun(c, s, ReclaimSteps(tokens))
    ensures EndOf(c, s, ReclaimSteps(tokens)) == s.(store := ReclaimedAll(s.store, tokens, c.policy.backoff, s.now))
    decreases |tokens|
  {
    if tokens == [] {
      assert ReclaimSteps(tokens) == [];
    } else {
      var t := After(c, s, Reclaim(tokens[0]));
      assert ReclaimSteps(tokens)[1..] == ReclaimSteps(tokens[1..]);
      forall i | 0 <= i < |tokens| - 1 ensures Enabled(c, t, Reclaim(tokens[1..][i])) {
        assert tokens[1..][i] == tokens[i + 1] && tokens[i + 1] != tokens[0];
        assert Enabled(c, s, Reclaim(tokens[i + 1]));
      }
      ReclaimIsARun(c, t, tokens[1..]);
    }
  }
}
