/**
 The in-process cache: values and expiry times in two dictionaries, lazy deletion on access,
 and a sweeper. The clock reading of each operation is a parameter.
 */
module MemoryCache {
  import opened Common

  /** A cached value; `asInt` is what reading it as an integer gives, if it can be read so. */
  datatype Value = Int(i: int) | Instant(at: real) | Other(text: string, asInt: Option<int>)

  function AsCount(v: Value): int {
    match v
    case Int(i) => i
    case Instant(at) => if at >= 0.0 then at.Floor else -((-at).Floor)
    case Other(_, Some(i)) => i
    case Other(_, None) => 0
  }

  datatype Cache<K(==)> = Cache(values: map<K, Value>, expiry: map<K, real>)

  datatype Op<K> =
    | Set(key: K, value: Value, ttl: Option<real>)
    | Get(key: K)
    | Delete(key: K)
    | GetDel(key: K)
    | Incr(key: K, ttl: Option<real>)
    | Exists(key: K)
    | Expire(key: K, ttl: Option<real>)
    | Sweep

  datatype Reply = Done | Found(value: Option<Value>) | Count(n: int) | Flag(b: bool)

  /** A missing or zero ttl means no expiry. */
  function Until(ttl: Option<real>, now: real): Option<real> {
    if ttl.None? || ttl.value == 0.0 then None else Some(now + ttl.value)
  }

  predicate Expired<K>(c: Cache<K>, key: K, now: real) {
    key in c.expiry && now > c.expiry[key]
  }

  function Dropped<K>(c: Cache<K>, key: K): Cache<K> {
    Cache(c.values - {key}, c.expiry - {key})
  }

  function Stored<K>(c: Cache<K>, key: K, value: Value, until: Option<real>): Cache<K> {
    Cache(c.values[key := value], if until.Some? then c.expiry[key := until.value] else c.expiry - {key})
  }

  /** The lazy deletion in front of every access. */
  function Touched<K>(c: Cache<K>, key: K, now: real): Cache<K> {
    if Expired(c, key, now) then Dropped(c, key) else c
  }

  function Swept<K>(c: Cache<K>, now: real): Cache<K> {
    DropAll(c, DeadKeys(c, now))
  }

  function Lookup<K>(c: Cache<K>, key: K): Option<Value> {
    if key in c.values then Some(c.values[key]) else None
  }

  function Next<K>(c: Cache<K>, key: K): int {
    (if key in c.values then AsCount(c.values[key]) else 0) + 1
  }

  function Do<K>(c: Cache<K>, op: Op<K>, now: real): (Cache<K>, Reply) {
    match op
    case Set(k, v, ttl) => (Stored(c, k, v, Until(ttl, now)), Done)
    case Get(k) => var t := Touched(c, k, now); (t, Found(Lookup(t, k)))
    case Delete(k) => (Dropped(c, k), Done)
    case GetDel(k) =>
      var t := Touched(c, k, now);
      (if k in t.values then Dropped(t, k) else t, Found(Lookup(t, k)))
    case Incr(k, ttl) =>
      var t := Touched(c, k, now);
      (Stored(t, k, Int(Next(t, k)), Until(ttl, now)), Count(Next(t, k)))
    case Exists(k) => var t := Touched(c, k, now); (t, Flag(k in t.values))
    case Expire(k, ttl) =>
      (if ttl.None? then c else c.(expiry := c.expiry[k := now + ttl.value]), Done)
    case Sweep => (Swept(c, now), Done)
  }

  // ------------------------------------------------------------------ the ideal: a map of deadlines

  datatype Cell = Cell(value: Value, until: Option<real>)

  function Aged<K>(m: map<K, Cell>, now: real): map<K, Cell> {
    map k | k in m && !(m[k].until.Some? && now > m[k].until.value) :: m[k]
  }

  /** A map in which an entry simply ceases to exist when its deadline has passed. */
  function Ideal<K>(m: map<K, Cell>, op: Op<K>, now: real): (map<K, Cell>, Reply) {
    var a := Aged(m, now);
    match op
    case Set(k, v, ttl) => (a[k := Cell(v, Until(ttl, now))], Done)
    case Get(k) => (a, Found(if k in a then Some(a[k].value) else None))
    case Delete(k) => (a - {k}, Done)
    case GetDel(k) => (a - {k}, Found(if k in a then Some(a[k].value) else None))
    case Incr(k, ttl) =>
      var n := (if k in a then AsCount(a[k].value) else 0) + 1;
      (a[k := Cell(Int(n), Until(ttl, now))], Count(n))
    case Exists(k) => (a, Flag(k in a))
    case Expire(k, ttl) =>
      (if ttl.None? || k !in a then a else a[k := Cell(a[k].value, Some(now + ttl.value))], Done)
    case Sweep => (a, Done)
  }

  /** What of the two dictionaries is alive. */
  function Live<K>(c: Cache<K>, now: real): map<K, Cell> {
    map k | k in c.values && !Expired(c, k, now) ::
      Cell(c.values[k], if k in c.expiry then Some(c.expiry[k]) else None)
  }

  /** Expired, but neither accessed nor swept since: `expire` would bring it back to life. */
  predicate Undead<K>(c: Cache<K>, key: K, now: real) {
    key in c.values && Expired(c, key, now)
  }

  ghost predicate Faithful<K>(c: Cache<K>, op: Op<K>, now: real) {
    var (c', reply) := Do(c, op, now);
    var (m', ideal) := Ideal(Live(c, now), op, now);
    reply == ideal && Live(c', now) == Aged(m', now)
  }

  lemma StoreFaithful<K>(c: Cache<K>, key: K, value: Value, until: Option<real>, now: real)
    ensures Live(Stored(c, key, value, until), now) == Aged(Live(c, now)[key := Cell(value, until)], now)
  {
  }

  lemma TouchFaithful<K>(c: Cache<K>, key: K, now: real)
    ensures Live(Touched(c, key, now), now) == Live(c, now) == Aged(Live(c, now), now)
    ensures Lookup(Touched(c, key, now), key) == if key in Live(c, now) then Some(Live(c, now)[key].value) else None
  {
  }

  lemma DropFaithful<K>(c: Cache<K>, key: K, now: real)
    ensures Live(Dropped(c, key), now) == Aged(Live(c, now) - {key}, now)
  {
  }

  lemma SweepFaithful<K>(c: Cache<K>, now: real)
    ensures Live(Swept(c, now), now) == Aged(Live(c, now), now)
  {
  }

  lemma ExpireView<K>(c: Cache<K>, key: K, ttl: real, now: real)
    ensures Live(c.(expiry := c.expiry[key := now + ttl]), now) ==
            if key in c.values && ttl >= 0.0 then Live(c, now)[key := Cell(c.values[key], Some(now + ttl))]
            else Live(c, now) - {key}
  {
  }

  lemma ExpireIdeal<K>(c: Cache<K>, key: K, ttl: real, now: real)
    requires key in Live(c, now)
    ensures Aged(Live(c, now)[key := Cell(c.values[key], Some(now + ttl))], now) ==
            if ttl >= 0.0 then Live(c, now)[key := Cell(c.values[key], Some(now + ttl))] else Live(c, now) - {key}
  {
  }

  lemma ExpireFaithful<K>(c: Cache<K>, key: K, ttl: real, now: real)
    ensures Faithful(c, Op.Expire(key, Some(ttl)), now) <==> !(ttl >= 0.0 && Undead(c, key, now))
  {
    LiveIsAged(c, now, now);
    ExpireView(c, key, ttl, now);
    if key in Live(c, now) {
      ExpireIdeal(c, key, ttl, now);
    } else {
      WithoutAbsent(Live(c, now), key);
    }
  }

  lemma WithoutAbsent<K>(m: map<K, Cell>, key: K)
    requires key !in m
    ensures m - {key} == m
  {
  }

  /**
   One operation follows the ideal exactly unless it extends the life of an entry that is
   expired but still stored.
   */
  lemma FaithfulIff<K>(c: Cache<K>, op: Op<K>, now: real)
    ensures Faithful(c, op, now)
       <==> !(op.Expire? && op.ttl.Some? && op.ttl.value >= 0.0 && Undead(c, op.key, now))
  {
    LiveIsAged(c, now, now);
    match op
    case Set(k, v, ttl) => StoreFaithful(c, k, v, Until(ttl, now), now);
    case Get(k) => TouchFaithful(c, k, now);
    case Delete(k) => DropFaithful(c, k, now);
    case GetDel(k) =>
      TouchFaithful(c, k, now);
      DropFaithful(Touched(c, k, now), k, now);
      assert k !in Live(c, now) ==> Live(c, now) - {k} == Live(c, now);
    case Incr(k, ttl) =>
      TouchFaithful(c, k, now);
      var t := Touched(c, k, now);
      StoreFaithful(t, k, Int(Next(t, k)), Until(ttl, now), now);
    case Exists(k) => TouchFaithful(c, k, now);
    case Expire(k, ttl) =>
      if ttl.Some? { ExpireFaithful(c, k, ttl.value, now); }
    case Sweep => SweepFaithful(c, now);
  }

  /** Nothing but the passing of time separates two views of the same dictionaries. */
  lemma LiveIsAged<K>(c: Cache<K>, t: real, later: real)
    requires t <= later
    ensures Aged(Live(c, t), later) == Live(c, later)
  {
  }

  // ------------------------------------------------------------------ whole runs

  datatype Timed<K> = Timed(op: Op<K>, now: real)

  ghost predicate InTimeOrder<K>(ops: seq<Timed<K>>, from: real)
    decreases |ops|
  {
    ops != [] ==> from <= ops[0].now && InTimeOrder(ops[1..], ops[0].now)
  }

  function After<K>(c: Cache<K>, ops: seq<Timed<K>>): Cache<K>
    decreases |ops|
  {
    if ops == [] then c else After(Do(c, ops[0].op, ops[0].now).0, ops[1..])
  }

  function Replies<K>(c: Cache<K>, ops: seq<Timed<K>>): seq<Reply>
    decreases |ops|
  {
    if ops == [] then []
    else
      var (c', r) := Do(c, ops[0].op, ops[0].now);
      (if ops[0].op.Sweep? then [] else [r]) + Replies(c', ops[1..])
  }

  function IdealReplies<K>(m: map<K, Cell>, ops: seq<Timed<K>>): seq<Reply>
    decreases |ops|
  {
    if ops == [] then []
    else
      var (m', r) := Ideal(m, ops[0].op, ops[0].now);
      (if ops[0].op.Sweep? then [] else [r]) + IdealReplies(m', ops[1..])
  }

  function Unswept<K>(ops: seq<Timed<K>>): seq<Timed<K>> {
    if ops == [] then []
    else if ops[0].op.Sweep? then Unswept(ops[1..])
    else [ops[0]] + Unswept(ops[1..])
  }

  /** No `expire` of the run lands on an expired entry that is still stored. */
  ghost predicate NoRevival<K>(c: Cache<K>, ops: seq<Timed<K>>)
    decreases |ops|
  {
    ops != [] ==>
      var op, now := ops[0].op, ops[0].now;
      && (op.Expire? && op.ttl.Some? ==> !Undead(c, op.key, now))
      && NoRevival(Do(c, op, now).0, ops[1..])
  }

  lemma IdealAges<K>(m: map<K, Cell>, op: Op<K>, now: real)
    ensures Ideal(m, op, now) == Ideal(Aged(m, now), op, now)
  {
    assert Aged(Aged(m, now), now) == Aged(m, now);
  }

  /** A run under a clock that does not go back is indistinguishable from the ideal's run. */
  lemma {:induction false} CacheRefines<K>(c: Cache<K>, m: map<K, Cell>, from: real, ops: seq<Timed<K>>)
    requires InTimeOrder(ops, from) && Live(c, from) == Aged(m, from) && NoRevival(c, ops)
    ensures Replies(c, ops) == IdealReplies(m, ops)
    decreases |ops|
  {
    if ops != [] {
      var op, now := ops[0].op, ops[0].now;
      LiveIsAged(c, from, now);
      assert Aged(Aged(m, from), now) == Aged(m, now);
      FaithfulIff(c, op, now);
      IdealAges(m, op, now);
      CacheRefines(Do(c, op, now).0, Ideal(m, op, now).0, now, ops[1..]);
    }
  }

  /** With no `expire`, replies do not depend on when, or whether, the sweeper runs. */
  lemma {:induction false} SweeperInvisible<K>(swept: Cache<K>, kept: Cache<K>, from: real, ops: seq<Timed<K>>)
    requires InTimeOrder(ops, from) && Live(swept, from) == Live(kept, from)
    requires forall o :: o in ops ==> !o.op.Expire?
    ensures Replies(swept, ops) == Replies(kept, Unswept(ops))
    decreases |ops|
  {
    if ops != [] {
      var op, now := ops[0].op, ops[0].now;
      assert ops[0] in ops;
      LiveIsAged(swept, from, now);
      LiveIsAged(kept, from, now);
      FaithfulIff(swept, op, now);
      var swept' := Do(swept, op, now).0;
      if op.Sweep? {
        SweeperInvisible(swept', kept, now, ops[1..]);
      } else {
        FaithfulIff(kept, op, now);
        SweeperInvisible(swept', Do(kept, op, now).0, now, ops[1..]);
        assert Unswept(ops)[1..] == Unswept(ops[1..]);
      }
    }
  }

  /** `expire` makes the sweeper visible: the same entry is gone if swept, revived if not. */
  lemma ExpireRevives()
    ensures var kept := [Timed(Set("k", Int(1), Some(1.0)), 0.0), Timed(Expire("k", Some(10.0)), 2.0), Timed(Get("k"), 3.0)];
            var swept := [kept[0], Timed(Sweep, 1.5), kept[1], kept[2]];
            && Unswept(swept) == kept
            && |Replies(Cache(map[], map[]), kept)| == |Replies(Cache(map[], map[]), swept)| == 3
            && Replies(Cache(map[], map[]), kept)[2] == Found(Some(Int(1)))
            && Replies(Cache(map[], map[]), swept)[2] == Found(None)
  {
    var c0: Cache<string> := Cache(map[], map[]);
    var a, b, g := Timed(Set("k", Int(1), Some(1.0)), 0.0), Timed(Expire("k", Some(10.0)), 2.0), Timed(Get("k"), 3.0);
    var w := Timed(Op<string>.Sweep, 1.5);
    var c1 := Do(c0, a.op, 0.0).0;
    assert c1 == Cache(map["k" := Int(1)], map["k" := 1.0]);
    var k2 := Do(c1, b.op, 2.0).0;
    assert k2 == Cache(map["k" := Int(1)], map["k" := 12.0]);
    var s2 := Do(c1, w.op, 1.5).0;
    assert s2 == Cache(map[], map[]);
    var s3 := Do(s2, b.op, 2.0).0;
    assert s3 == Cache(map[], map["k" := 12.0]);
    ThreeReplies(c0, a, b, g);
    ThreeReplies(s2, b, g, g);
    assert [a, w, b, g][1..] == [w, b, g] && [w, b, g][1..] == [b, g] && [b, g][1..] == [g] && [g][1..] == [];
    assert Replies(s3, [g]) == [Found(None)] + Replies(Do(s3, g.op, 3.0).0, []);
    assert Replies(s2, [b, g]) == [Done] + Replies(s3, [g]);
    assert Replies(c1, [w, b, g]) == Replies(s2, [b, g]);
    assert Replies(c0, [a, w, b, g]) == [Done] + Replies(c1, [w, b, g]);
    assert [a, b, g][1..] == [b, g];
    assert Unswept([g]) == [g] && Unswept([b, g]) == [b, g] && Unswept([w, b, g]) == [b, g];
    assert Unswept([a, w, b, g]) == [a] + [b, g];
  }

  lemma ThreeReplies<K>(c: Cache<K>, x: Timed<K>, y: Timed<K>, z: Timed<K>)
    requires !x.op.Sweep? && !y.op.Sweep? && !z.op.Sweep?
    ensures var c1 := Do(c, x.op, x.now).0; var c2 := Do(c1, y.op, y.now).0;
            Replies(c, [x, y, z]) == [Do(c, x.op, x.now).1, Do(c1, y.op, y.now).1, Do(c2, z.op, z.now).1]
  {
    var c1 := Do(c, x.op, x.now).0;
    var c2 := Do(c1, y.op, y.now).0;
    var c3 := Do(c2, z.op, z.now).0;
    assert [x, y, z][1..] == [y, z] && [y, z][1..] == [z] && [z][1..] == [];
    assert Replies(c3, []) == [];
    assert Replies(c2, [z]) == [Do(c2, z.op, z.now).1] + Replies(c3, []);
    assert Replies(c1, [y, z]) == [Do(c1, y.op, y.now).1] + Replies(c2, [z]);
  }

  // ------------------------------------------------------------------ the class

  class SimpleMemoryCache<K(==)> {
    var values: map<K, Value>
    var expiry: map<K, real>

    ghost function State(): Cache<K>
      reads this
    {
      Cache(values, expiry)
    }

    constructor ()
      ensures State() == Cache(map[], map[])
    {
      values, expiry := map[], map[];
    }

    /** Deletes a key from both dictionaries, from each only if it is there. */
    method Remove(key: K)
      modifies this
      ensures State() == Dropped(old(State()), key)
    {
      if key in values {
        values := values - {key};
      }
      if key in expiry {
        expiry := expiry - {key};
      }
    }

    method Set(key: K, value: Value, ttl: Option<real>, now: real)
      modifies this
      ensures (State(), Done) == Do(old(State()), Op.Set(key, value, ttl), now)
    {
      values := values[key := value];
      if ttl.Some? && ttl.value != 0.0 {
        expiry := expiry[key := now + ttl.value];
      } else {
        expiry := expiry - {key};
      }
    }

    method Get(key: K, now: real) returns (r: Option<Value>)
      modifies this
      ensures (State(), Found(r)) == Do(old(State()), Op.Get(key), now)
    {
      if key in expiry && now > expiry[key] {
        Remove(key);
        return None;
      }
      if key !in values {
        return None;
      }
      return Some(values[key]);
    }

    method Delete(key: K, now: real)
      modifies this
      ensures (State(), Done) == Do(old(State()), Op.Delete(key), now)
    {
      Remove(key);
    }

    method GetDel(key: K, now: real) returns (r: Option<Value>)
      modifies this
      ensures (State(), Found(r)) == Do(old(State()), Op.GetDel(key), now)
    {
      if key in expiry && now > expiry[key] {
        Remove(key);
        return None;
      }
      if key !in values {
        return None;
      }
      r := Some(values[key]);
      values := values - {key};
      expiry := expiry - {key};
    }

    method Incr(key: K, ttl: Option<real>, now: real) returns (n: int)
      modifies this
      ensures (State(), Count(n)) == Do(old(State()), Op.Incr(key, ttl), now)
    {
      if key in expiry && now > expiry[key] {
        Remove(key);
      }
      var current := if key in values then AsCount(values[key]) else 0;
      n := current + 1;
      values := values[key := Int(n)];
      if ttl.Some? && ttl.value != 0.0 {
        expiry := expiry[key := now + ttl.value];
      } else {
        expiry := expiry - {key};
      }
    }

    method Exists(key: K, now: real) returns (b: bool)
      modifies this
      ensures (State(), Flag(b)) == Do(old(State()), Op.Exists(key), now)
    {
      if key in expiry && now > expiry[key] {
        Remove(key);
        return false;
      }
      return key in values;
    }

    method Expire(key: K, ttl: Option<real>, now: real)
      modifies this
      ensures (State(), Done) == Do(old(State()), Op.Expire(key, ttl), now)
    {
      if ttl.Some? {
        expiry := expiry[key := now + ttl.value];
      }
    }

    method ClearExpired(now: real) returns (n: nat)
      modifies this
      ensures (State(), Done) == Do(old(State()), Op.Sweep, now)
      ensures n == |DeadKeys(old(State()), now)|
    {
      var dead := DeadKeys(Cache(values, expiry), now);
      n := |dead|;
      ghost var before := State();
      var left, gone := dead, {};
      DropNone(before);
      while left != {}
        invariant left + gone == dead
        invariant State() == DropAll(before, gone)
        decreases left
      {
        var k :| k in left;
        DropMore(before, gone, k);
        Remove(k);
        left, gone := left - {k}, gone + {k};
      }
      SweepDropsDead(before, now);
    }
  }

  function DeadKeys<K>(c: Cache<K>, now: real): set<K> {
    set k | k in c.expiry && now > c.expiry[k]
  }

  function DropAll<K>(c: Cache<K>, keys: set<K>): Cache<K> {
    Cache(c.values - keys, c.expiry - keys)
  }

  lemma DropNone<K>(c: Cache<K>)
    ensures DropAll(c, {}) == c
  {
  }

  lemma SweepDropsDead<K>(c: Cache<K>, now: real)
    ensures Do(c, Op.Sweep, now) == (DropAll(c, DeadKeys(c, now)), Done)
  {
  }

  lemma DropMore<K>(c: Cache<K>, gone: set<K>, key: K)
    ensures Dropped(DropAll(c, gone), key) == DropAll(c, gone + {key})
  {
  }
}
