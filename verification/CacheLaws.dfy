/** What a caller of the in-process cache can rely on, operation against operation. */
module CacheLaws {
  import opened Common
  import opened MemoryCache

  function After<K(==)>(c: Cache<K>, op: Op<K>, now: real): Cache<K> {
    Do(c, op, now).0
  }

  function Replies<K(==)>(c: Cache<K>, op: Op<K>, now: real): Reply {
    Do(c, op, now).1
  }

  /** A value is found until its time to live is over, and always if it has none. */
  lemma SetThenGet<K>(c: Cache<K>, key: K, value: Value, ttl: Option<real>, stored: real, now: real)
    ensures Replies(After(c, Op.Set(key, value, ttl), stored), Op.Get(key), now)
         == Found(if ttl == None || ttl == Some(0.0) || now <= stored + ttl.value then Some(value) else None)
  {
  }

  /** Reading and deleting finds the same, and leaves nothing. */
  lemma GetDelTakes<K>(c: Cache<K>, key: K, now: real, later: real)
    ensures Replies(c, Op.GetDel(key), now) == Replies(c, Op.Get(key), now)
    ensures Replies(After(c, Op.GetDel(key), now), Op.Get(key), later) == Found(None)
  {
  }

  lemma DeleteForgets<K>(c: Cache<K>, key: K, now: real, later: real)
    ensures Replies(After(c, Op.Delete(key), now), Op.Get(key), later) == Found(None)
  {
  }

  /** A key exists if and only if a lookup finds it. */
  lemma ExistsMeansFound<K>(c: Cache<K>, key: K, now: real)
    ensures Replies(c, Op.Exists(key), now) == Flag(Replies(c, Op.Get(key), now) != Found(None))
  {
  }

  /** Looking something up does not change what is found at that time or later. */
  lemma GetChangesNothing<K>(c: Cache<K>, key: K, now: real, other: K, later: real)
    requires now <= later
    ensures Replies(After(c, Op.Get(key), now), Op.Get(other), later) == Replies(c, Op.Get(other), later)
  {
  }

  /** A new time to live replaces the old one, counted from the moment it is set. */
  lemma ExpireRenews<K>(c: Cache<K>, key: K, value: Value, ttl: Option<real>, stored: real, more: real, renewed: real, now: real)
    ensures Replies(After(After(c, Op.Set(key, value, ttl), stored), Op.Expire(key, Some(more)), renewed), Op.Get(key), now)
         == Found(if now <= renewed + more then Some(value) else None)
    ensures After(c, Op.Expire(key, None), now) == c
  {
  }

  /** The number a value counts as: a fraction is cut off towards zero, and text that is no number is zero. */
  ghost predicate Reads(value: Value, n: int) {
    match value
    case Int(i) => n == i
    case Instant(at) => if at >= 0.0 then n as real <= at < (n + 1) as real else (n - 1) as real < at <= n as real
    case Other(_, asInt) => n == if asInt.Some? then asInt.value else 0
  }

  lemma CountReads(value: Value)
    ensures Reads(value, AsCount(value))
  {
  }

  /** Counting goes on from what is found, from zero if there is nothing, and renews the time to live. */
  lemma IncrCounts<K>(c: Cache<K>, key: K, ttl: Option<real>, now: real, n: int, later: real)
    requires match Replies(c, Op.Get(key), now)
             case Found(Some(value)) => Reads(value, n)
             case _ => n == 0
    ensures Replies(c, Op.Incr(key, ttl), now) == Count(n + 1)
    ensures Replies(After(c, Op.Incr(key, ttl), now), Op.Get(key), later)
         == Found(if ttl == None || ttl == Some(0.0) || later <= now + ttl.value then Some(Int(n + 1)) else None)
  {
    if key in Touched(c, key, now).values {
      CountReads(Touched(c, key, now).values[key]);
    }
  }

  /** Operations on one key leave what is found under another. */
  lemma OthersAreLeft<K>(c: Cache<K>, op: Op<K>, now: real, other: K, later: real)
    requires op.Sweep? || op.key != other
    requires now <= later
    ensures Replies(After(c, op, now), Op.Get(other), later) == Replies(c, Op.Get(other), later)
  {
    if op.Sweep? {
      SweepIsInvisible(c, now, other, later);
    }
  }

  lemma SweepIsInvisible<K>(c: Cache<K>, now: real, key: K, later: real)
    requires now <= later
    ensures Replies(Swept(c, now), Op.Get(key), later) == Replies(c, Op.Get(key), later)
  {
    SweptMeans(c, now, key);
  }

  /** A sweep drops exactly what has expired. */
  lemma SweptMeans<K>(c: Cache<K>, now: real, key: K)
    ensures key in Swept(c, now).values <==> key in c.values && !(key in c.expiry && now > c.expiry[key])
    ensures key in Swept(c, now).values ==> Swept(c, now).values[key] == c.values[key]
    ensures key in Swept(c, now).expiry <==> key in c.expiry && now <= c.expiry[key]
    ensures key in Swept(c, now).expiry ==> Swept(c, now).expiry[key] == c.expiry[key]
  {
  }
}
