/**
 Snowflake ids and version 7 UUIDs. Ids are put together with shifts and bitwise or, written
 out bit by bit; the clock is the list of the readings a call will see.
 */
module Snowflake {
  import opened Common

  const TWEPOCH := 1288834974657
  const MAX_NODE := 31          // workers and datacenters: five bits each
  const SEQUENCE_MASK := 4095   // twelve bits

  function Shl(x: int, n: nat): (r: int)
    ensures x >= 0 ==> r >= 0
  {
    x * Pow2(n)
  }

  /** x | y, bit by bit, for any x and for y that is not negative. */
  function Or(x: int, y: nat): int
    decreases y
  {
    if y == 0 then x
    else 2 * Or(x / 2, y / 2) + (if x % 2 == 1 || y % 2 == 1 then 1 else 0)
  }

  predicate Bit(x: int, k: nat)
    decreases k
  {
    if k == 0 then x % 2 == 1 else Bit(x / 2, k - 1)
  }

  /** A bit of it is set if either number has it set. */
  lemma {:induction false} OrIsBitwise(x: int, y: nat, k: nat)
    ensures Bit(Or(x, y), k) <==> Bit(x, k) || Bit(y, k)
    decreases k
  {
    if y == 0 {
      NoBits(k);
    } else if k > 0 {
      OrIsBitwise(x / 2, y / 2, k - 1);
    }
  }

  lemma {:induction false} NoBits(k: nat)
    ensures !Bit(0, k)
  {
    if k > 0 {
      NoBits(k - 1);
    }
  }

  lemma Halve(x: int, p: nat)
    ensures x * (2 * p) == 2 * (x * p)
    ensures (x * (2 * p)) / 2 == x * p && (x * (2 * p)) % 2 == 0
  {
    assert x * (2 * p) == 2 * (x * p);
  }

  // ------------------------------------------------------------------ the layout of an id

  datatype Node = Node(datacenter: nat, worker: nat) {
    predicate Valid() {
      datacenter <= MAX_NODE && worker <= MAX_NODE
    }
  }

  /** The id of one millisecond's `sequence`-th call on a node, as the source composes it. */
  function Compose(timestamp: int, node: Node, sequence: nat): int {
    Or(Or(Or(Shl(timestamp - TWEPOCH, 22), Shl(node.datacenter, 17)), Shl(node.worker, 12)), sequence)
  }

  datatype Fields = Fields(timestamp: int, node: Node, sequence: nat)

  /** The fields read back by shifting and masking, five bits at a time above the sequence. */
  function Decode(id: int): Fields {
    var node := id / 0x1000;
    Fields(node / 32 / 32 + TWEPOCH, Node(node / 32 % 32, node % 32), id % 0x1000)
  }

  lemma PowersUsed()
    ensures Pow2(12) == 0x1000 && Pow2(17) == 0x2_0000 && Pow2(22) == 0x40_0000
  {
    assert Pow2(4) == 16;
    assert Pow2(8) == 256;
    assert Pow2(12) == 4096;
    assert Pow2(16) == 65536;
    assert Pow2(20) == 1048576;
    assert Pow2(22) == 4194304;
  }

  /** Where the bits do not overlap, or is addition. */
  lemma {:induction false} OrIsPlus(x: int, y: nat, low: nat)
    requires y < Pow2(low)
    ensures Or(Shl(x, low), y) == Shl(x, low) + y
    decreases low
  {
    if low > 0 && y > 0 {
      var p := Pow2(low - 1);
      Halve(x, p);
      assert Shl(x, low) == x * (2 * p);
      OrIsPlus(x, y / 2, low - 1);
    }
  }

  lemma {:induction false} PowAdd(a: nat, b: nat)
    ensures Pow2(a + b) == Pow2(a) * Pow2(b)
  {
    if a > 0 {
      PowAdd(a - 1, b);
      assert Pow2(a + b) == 2 * Pow2(a - 1 + b);
      assert 2 * (Pow2(a - 1) * Pow2(b)) == (2 * Pow2(a - 1)) * Pow2(b);
    }
  }

  lemma Distribute(a: int, b: int, c: int, d: int)
    ensures (a * b + d) * c == a * (b * c) + d * c
  {
    assert (a * b + d) * c == (a * b) * c + d * c;
    assert (a * b) * c == a * (b * c);
  }

  lemma BelowProduct(y: nat, gap: nat, low: nat)
    requires y < gap && low >= 1
    ensures y * low < gap * low
  {
  }

  /** A field of `gap` bits set behind a prefix, both above the low bits. */
  lemma OrsAdd(x: int, y: nat, gap: nat, low: nat)
    requires y < Pow2(gap)
    ensures Or(Shl(x, gap + low), Shl(y, low)) == Shl(x * Pow2(gap) + y, low)
  {
    PowAdd(gap, low);
    BelowProduct(y, Pow2(gap), Pow2(low));
    Distribute(x, Pow2(gap), Pow2(low), y);
    OrIsPlus(x, Shl(y, low), gap + low);
  }

  lemma OrsAt(x: int, y: nat, gap: nat, limit: nat, above: nat, low: nat) returns (z: int)
    requires limit == Pow2(gap) && y < limit && above == gap + low
    ensures z == x * limit + y && Or(Shl(x, above), Shl(y, low)) == Shl(z, low)
  {
    z := x * limit + y;
    OrsAdd(x, y, gap, low);
  }

  /** Composing is a weighted sum, so its fields come back and its order is theirs. */
  lemma ComposeIsSum(timestamp: int, node: Node, sequence: nat)
    requires node.Valid() && sequence <= SEQUENCE_MASK
    ensures Compose(timestamp, node, sequence)
         == (timestamp - 1288834974657) * 0x40_0000 + node.datacenter * 0x2_0000 + node.worker * 0x1000 + sequence
  {
    PowersUsed();
    assert Pow2(5) == 32;
    Summed(timestamp - TWEPOCH, node.datacenter, node.worker, sequence, 22, 17, 12);
  }

  lemma Summed(t: int, d: nat, w: nat, sequence: nat, above: nat, atD: nat, atW: nat)
    requires d < 32 && w < 32 && sequence < 0x1000
    requires Pow2(5) == 32 && Pow2(atW) == 0x1000 && atD == atW + 5 && above == atD + 5
    ensures Or(Or(Or(Shl(t, above), Shl(d, atD)), Shl(w, atW)), sequence)
         == t * 0x40_0000 + d * 0x2_0000 + w * 0x1000 + sequence
  {
    var p := OrsAt(t, d, 5, 32, above, atD);
    var q := OrsAt(p, w, 5, 32, atD, atW);
    OrIsPlus(q, sequence, atW);
  }

  lemma DecodeUndoesCompose(timestamp: int, node: Node, sequence: nat)
    requires node.Valid() && sequence <= SEQUENCE_MASK
    ensures Decode(Compose(timestamp, node, sequence)) == Fields(timestamp, node, sequence)
  {
    ComposeIsSum(timestamp, node, sequence);
    Unpack(Compose(timestamp, node, sequence), timestamp - TWEPOCH, node.datacenter, node.worker, sequence);
  }

  lemma Unpack(id: int, t: int, d: nat, w: nat, n: nat)
    requires d < 32 && w < 32 && n < 0x1000
    requires id == t * 0x40_0000 + d * 0x2_0000 + w * 0x1000 + n
    ensures id % 0x1000 == n && id / 0x1000 % 32 == w && id / 0x1000 / 32 % 32 == d && id / 0x1000 / 32 / 32 == t
  {
    assert id / 0x1000 == (t * 32 + d) * 32 + w;
    assert id / 0x1000 / 32 == t * 32 + d;
  }

  // ------------------------------------------------------------------ one worker

  datatype Result = Id(id: int) | ClockMovedBack(millis: int) | Spinning

  /** A worker's memory: the last timestamp it used, and the last sequence number in it. */
  datatype Memory = Memory(last: int, sequence: int)

  /** The first reading past `last`, if the readings get there. */
  function FirstPast(readings: seq<int>, last: int): (r: Result)
    ensures !r.ClockMovedBack?
  {
    if readings == [] then Spinning
    else if readings[0] > last then Id(readings[0])
    else FirstPast(readings[1..], last)
  }

  /** The time and number a call settles on, given the clock readings it sees. */
  function Ticked(m: Memory, readings: seq<int>): (r: (Memory, Result))
    requires m.sequence >= 0
    ensures r.0.sequence >= 0
  {
    if readings == [] then (m, Spinning)
    else
      var now := readings[0];
      if now < m.last then (m, ClockMovedBack(m.last - now))
      else if now > m.last then (Memory(now, 0), Id(now))
      else
        var next := (m.sequence + 1) % (SEQUENCE_MASK + 1);
        if next != 0 then (Memory(now, next), Id(now))
        else
          match FirstPast(readings[1..], m.last)
          case Id(later) => (Memory(later, 0), Id(later))
          case _ => (m.(sequence := 0), Spinning)
  }

  /** One call: the memory it leaves and what it returns. */
  function Called(m: Memory, node: Node, readings: seq<int>): (Memory, Result)
    requires m.sequence >= 0
  {
    var (m', r) := Ticked(m, readings);
    (m', if r.Id? then Id(Compose(m'.last, node, m'.sequence)) else r)
  }

  class SnowflakeIdWorker {
    const node: Node
    var last: int
    var sequence: nat

    ghost function State(): Memory
      reads this
    {
      Memory(last, sequence)
    }

    constructor (node: Node)
      requires node.Valid()
      ensures this.node == node && State() == Memory(-1, 0)
    {
      this.node, last, sequence := node, -1, 0;
    }

    /** A worker for numbers in range; out of range ones are refused. */
    static method Create(worker: int, datacenter: int) returns (w: SnowflakeIdWorker?)
      ensures w != null <==> 0 <= worker <= 31 && 0 <= datacenter <= 31
      ensures w != null ==> fresh(w) && w.node == Node(datacenter, worker) && w.State() == Memory(-1, 0)
    {
      if worker > MAX_NODE || worker < 0 {
        return null;
      }
      if datacenter > MAX_NODE || datacenter < 0 {
        return null;
      }
      w := new SnowflakeIdWorker(Node(datacenter, worker));
    }

    /** Reads the clock until it has passed `last`; the readings may run out first. */
    method TilNextMillis(readings: seq<int>, last: int) returns (r: Result)
      ensures r == FirstPast(readings, last)
    {
      for i := 0 to |readings|
        invariant FirstPast(readings, last) == FirstPast(readings[i..], last)
      {
        assert readings[i..][1..] == readings[i + 1..];
        if readings[i] > last {
          return Id(readings[i]);
        }
      }
      return Spinning;
    }

    method NextId(readings: seq<int>) returns (r: Result)
      modifies this
      ensures (State(), r) == Called(old(State()), node, readings)
    {
      if readings == [] {
        return Spinning;
      }
      var timestamp := readings[0];
      if timestamp < last {
        return ClockMovedBack(last - timestamp);
      }
      if timestamp == last {
        sequence := (sequence + 1) % (SEQUENCE_MASK + 1);
        if sequence == 0 {
          var later := TilNextMillis(readings[1..], last);
          if later.Spinning? {
            return Spinning;
          }
          timestamp := later.id;
        }
      } else {
        sequence := 0;
      }
      last := timestamp;
      return Id(Compose(timestamp, node, sequence));
    }
  }

  // ------------------------------------------------------------------ every clock

  lemma {:induction false} FirstPastIsPast(readings: seq<int>, last: int)
    ensures match FirstPast(readings, last)
            case Id(t) => t > last && t in readings
            case Spinning => forall r :: r in readings ==> r <= last
            case ClockMovedBack(_) => true
  {
    if readings != [] {
      FirstPastIsPast(readings[1..], last);
      assert forall r :: r in readings ==> r == readings[0] || r in readings[1..];
    }
  }

  /** The ids of a run of calls, one list of readings a call; a call that spins never returns. */
  function Ids(m: Memory, node: Node, calls: seq<seq<int>>): seq<int>
    requires m.sequence >= 0
    decreases |calls|
  {
    if calls == [] then []
    else
      var (m', r) := Called(m, node, calls[0]);
      match r
      case Id(id) => [id] + Ids(m', node, calls[1..])
      case ClockMovedBack(_) => Ids(m', node, calls[1..])
      case Spinning => []
  }

  /** A call uses a time and number behind the memory's, and remembers them. */
  lemma CallMovesOn(m: Memory, node: Node, readings: seq<int>)
    requires node.Valid() && 0 <= m.sequence <= SEQUENCE_MASK
    ensures var (m', r) := Called(m, node, readings);
            && 0 <= m'.sequence <= SEQUENCE_MASK
            && (r.Id? ==>
                  && r.id == Compose(m'.last, node, m'.sequence)
                  && (m'.last > m.last || (m'.last == m.last && m'.sequence > m.sequence)))
            && (r.ClockMovedBack? ==> m' == m)
  {
    if readings != [] {
      FirstPastIsPast(readings[1..], m.last);
    }
  }

  lemma TickInWords(m: Memory, readings: seq<int>)
    requires 0 <= m.sequence <= 4095 && readings != []
    ensures var now, (m', r) := readings[0], Ticked(m, readings);
            && (now < m.last ==> m' == m && r == ClockMovedBack(m.last - now))
            && (now > m.last ==> m' == Memory(now, 0) && r == Id(now))
            && (now == m.last && m.sequence < 4095 ==> m' == Memory(now, m.sequence + 1) && r == Id(now))
            && (now == m.last && m.sequence == 4095 && r.Id? ==>
                  m'.last > now && m'.sequence == 0 && m'.last in readings && r == Id(m'.last))
            && (now == m.last && m.sequence == 4095 && !r.Id? ==>
                  r == Spinning && m'.last == m.last && forall t :: t in readings ==> t <= now)
  {
    FirstPastIsPast(readings[1..], m.last);
    assert forall t :: t in readings ==> t == readings[0] || t in readings[1..];
  }

  /** One call in words: which time and number it uses, and when it waits or refuses. */
  lemma CallInWords(m: Memory, node: Node, readings: seq<int>)
    requires 0 <= m.sequence <= 4095 && readings != []
    ensures var now, (m', r) := readings[0], Called(m, node, readings);
            && (now < m.last ==> m' == m && r == ClockMovedBack(m.last - now))
            && (now > m.last ==> m' == Memory(now, 0) && r == Id(Compose(now, node, 0)))
            && (now == m.last && m.sequence < 4095 ==>
                  m' == Memory(now, m.sequence + 1) && r == Id(Compose(now, node, m.sequence + 1)))
            && (now == m.last && m.sequence == 4095 && r.Id? ==>
                  m'.last > now && m'.sequence == 0 && m'.last in readings && r == Id(Compose(m'.last, node, 0)))
            && (now == m.last && m.sequence == 4095 && !r.Id? ==>
                  r == Spinning && forall t :: t in readings ==> t <= now)
  {
    TickInWords(m, readings);
  }

  /** The calls of one millisecond number their ids from its first one on, without a gap. */
  lemma {:induction false} NumberedWithoutGap(m: Memory, node: Node, calls: seq<seq<int>>, now: int)
    requires node.Valid() && 0 <= m.sequence && m.sequence + |calls| <= 4095 && m.last == now
    requires forall i :: 0 <= i < |calls| ==> calls[i] == [now]
    ensures |Ids(m, node, calls)| == |calls|
    ensures forall i :: 0 <= i < |calls| ==> Ids(m, node, calls)[i] == Compose(now, node, m.sequence) + i + 1
    decreases |calls|
  {
    if calls != [] {
      CallInWords(m, node, calls[0]);
      ComposeIsSum(now, node, m.sequence);
      ComposeIsSum(now, node, m.sequence + 1);
      NumberedWithoutGap(Memory(now, m.sequence + 1), node, calls[1..], now);
    }
  }

  /** For every clock, ids strictly increase and stay above everything issued before. */
  lemma {:induction false} IdsIncrease(m: Memory, node: Node, calls: seq<seq<int>>)
    requires node.Valid() && 0 <= m.sequence <= SEQUENCE_MASK
    ensures forall id :: id in Ids(m, node, calls) ==>
              id > Compose(m.last, node, m.sequence) && Decode(id).node == node && Decode(id).timestamp >= m.last
    ensures forall i, j :: 0 <= i < j < |Ids(m, node, calls)| ==> Ids(m, node, calls)[i] < Ids(m, node, calls)[j]
    decreases |calls|
  {
    if calls != [] {
      CallMovesOn(m, node, calls[0]);
      var (m', r) := Called(m, node, calls[0]);
      if !r.Spinning? {
        IdsIncrease(m', node, calls[1..]);
        ComposeIsSum(m.last, node, m.sequence);
        ComposeIsSum(m'.last, node, m'.sequence);
        DecodeUndoesCompose(m'.last, node, m'.sequence);
        if r.Id? {
          Ahead(r.id, Ids(m', node, calls[1..]));
        }
      }
    }
  }

  lemma Ahead(id: int, ids: seq<int>)
    requires forall x :: x in ids ==> x > id
    requires forall i, j :: 0 <= i < j < |ids| ==> ids[i] < ids[j]
    ensures forall i, j :: 0 <= i < j < |[id] + ids| ==> ([id] + ids)[i] < ([id] + ids)[j]
  {
    forall i, j | 0 <= i < j < |[id] + ids| ensures ([id] + ids)[i] < ([id] + ids)[j] {
      assert ([id] + ids)[j] == ids[j - 1] && ids[j - 1] in ids;
    }
  }

  /** At most 4096 ids of one worker carry the same millisecond, whatever the clock does. */
  lemma AtMost4096PerMillisecond(node: Node, calls: seq<seq<int>>, i: nat, j: nat)
    requires node.Valid() && i <= j < |Ids(Memory(-1, 0), node, calls)|
    requires var ids := Ids(Memory(-1, 0), node, calls); Decode(ids[i]).timestamp == Decode(ids[j]).timestamp
    ensures j - i + 1 <= 4096
  {
    var ids := Ids(Memory(-1, 0), node, calls);
    IdsIncrease(Memory(-1, 0), node, calls);
    GapAtLeast(ids, i, j);
    assert Decode(ids[i]).node == Decode(ids[j]).node by {
      assert ids[i] in ids && ids[j] in ids;
    }
    SameFields(ids[i], ids[j]);
  }

  lemma SameFields(a: int, b: int)
    requires Decode(a).timestamp == Decode(b).timestamp && Decode(a).node == Decode(b).node
    ensures b - a <= 4095
  {
    var x, y := a / 0x1000, b / 0x1000;
    assert x / 32 == y / 32;
    assert x == y;
  }

  lemma {:induction false} GapAtLeast(ids: seq<int>, i: nat, j: nat)
    requires i <= j < |ids| && forall a, b :: 0 <= a < b < |ids| ==> ids[a] < ids[b]
    ensures ids[j] - ids[i] >= j - i
    decreases j
  {
    if i < j {
      GapAtLeast(ids, i, j - 1);
    }
  }

  /** Workers that differ in datacenter or number never issue the same id. */
  lemma WorkersNeverCollide(m: Node, n: Node, calls: seq<seq<int>>, others: seq<seq<int>>, id: int)
    requires m.Valid() && n.Valid() && m != n
    ensures !(id in Ids(Memory(-1, 0), m, calls) && id in Ids(Memory(-1, 0), n, others))
  {
    IdsIncrease(Memory(-1, 0), m, calls);
    IdsIncrease(Memory(-1, 0), n, others);
  }

  // ------------------------------------------------------------------ UUID version 7

  const MS_LIMIT := 0x1_0000_0000_0000        // 48 bits
  const RAND_A_LIMIT := 0x1000                // 12 bits
  const RAND_B_LIMIT := 0x4000_0000_0000_0000 // 62 bits

  /** The 128-bit value: milliseconds, version, random bits, variant, random bits. */
  function Layout(unixMs: int, version: nat, randA: nat, variant: nat, randB: nat): int {
    Or(Or(Or(Or(Shl(unixMs % MS_LIMIT, 80), Shl(version, 76)), Shl(randA, 64)), Shl(variant, 62)), randB)
  }

  lemma Pow62()
    ensures Pow2(62) == RAND_B_LIMIT
  {
    PowersUsed();
    PowAdd(20, 42);
    PowAdd(20, 22);
  }

  function Nested(unixMs: int, version: nat, randA: nat, variant: nat, randB: nat): int {
    (((unixMs % MS_LIMIT * 16 + version) * RAND_A_LIMIT + randA) * 4 + variant) * RAND_B_LIMIT + randB
  }

  lemma LayoutIsNested(unixMs: int, version: nat, randA: nat, variant: nat, randB: nat)
    requires version < 16 && randA < RAND_A_LIMIT && variant < 4 && randB < RAND_B_LIMIT
    ensures Layout(unixMs, version, randA, variant, randB) == Nested(unixMs, version, randA, variant, randB)
  {
    Pow62();
    Layered(unixMs % MS_LIMIT, version, randA, variant, randB, 80, 76, 64, 62);
  }

  lemma Layered(x: int, v: nat, a: nat, t: nat, b: nat, above: nat, atV: nat, atA: nat, atT: nat)
    requires v < 16 && a < RAND_A_LIMIT && t < 4 && b < RAND_B_LIMIT
    requires Pow2(atT) == RAND_B_LIMIT && atA == atT + 2 && atV == atA + 12 && above == atV + 4
    ensures Or(Or(Or(Or(Shl(x, above), Shl(v, atV)), Shl(a, atA)), Shl(t, atT)), b)
         == (((x * 16 + v) * RAND_A_LIMIT + a) * 4 + t) * RAND_B_LIMIT + b
  {
    FieldWidths();
    var p := OrsAt(x, v, 4, 16, above, atV);
    var q := OrsAt(p, a, 12, RAND_A_LIMIT, atV, atA);
    var r := OrsAt(q, t, 2, 4, atA, atT);
    OrIsPlus(r, b, atT);
  }

  lemma FieldWidths()
    ensures Pow2(2) == 4 && Pow2(4) == 16 && Pow2(12) == RAND_A_LIMIT
  {
    PowersUsed();
  }

  lemma Peel(z: int, r: nat, limit: nat)
    requires r < limit
    ensures (z * limit + r) / limit == z && (z * limit + r) % limit == r
  {
    var v := z * limit + r;
    assert v == v / limit * limit + v % limit;
    assert (v / limit - z) * limit == r - v % limit;
    Grows(v / limit - z, limit);
  }

  lemma Grows(d: int, limit: int)
    requires limit > 0
    ensures d > 0 ==> d * limit >= limit
    ensures d < 0 ==> d * limit <= -limit
  {
  }

  datatype UuidFields = UuidFields(ms: int, version: int, randA: int, variant: int, randB: int)

  /** The fields of section 5.7 of RFC 9562, read by position. */
  function ReadUuid(v: int): UuidFields {
    var high := v / RAND_B_LIMIT;
    UuidFields(high / 4 / RAND_A_LIMIT / 16, high / 4 / RAND_A_LIMIT % 16, high / 4 % RAND_A_LIMIT,
               high % 4, v % RAND_B_LIMIT)
  }

  lemma Uuid7Fields(unixMs: int, version: nat, randA: nat, variant: nat, randB: nat)
    requires version == 7 && randA < RAND_A_LIMIT && variant == 2 && randB < RAND_B_LIMIT
    ensures ReadUuid(Layout(unixMs, version, randA, variant, randB))
         == UuidFields(unixMs % MS_LIMIT, 7, randA, 2, randB)
  {
    LayoutIsNested(unixMs, version, randA, variant, randB);
    NestedFields(unixMs, version, randA, variant, randB);
  }

  /** The value that a new UUID gets for these milliseconds and random bits. */
  function GenerateUuid7(unixMs: int, randA: nat, randB: nat): int {
    Layout(unixMs, 0x7, randA, 0x2, randB)
  }

  /** From the low end: 62 random bits, the variant 2, 12 random bits, the version 7, 48 bits of time. */
  lemma Uuid7InWords(unixMs: int, randA: nat, randB: nat)
    requires randA < 0x1000 && randB < 0x4000_0000_0000_0000
    ensures var v := GenerateUuid7(unixMs, randA, randB);
            && v % 0x4000_0000_0000_0000 == randB && v / 0x4000_0000_0000_0000 % 4 == 2
            && v / 0x4000_0000_0000_0000 / 4 % 0x1000 == randA
            && v / 0x4000_0000_0000_0000 / 4 / 0x1000 % 16 == 7
            && v / 0x4000_0000_0000_0000 / 4 / 0x1000 / 16 == unixMs % 0x1_0000_0000_0000
  {
    Uuid7Fields(unixMs, 7, randA, 2, randB);
  }

  lemma NestedFields(unixMs: int, version: nat, randA: nat, variant: nat, randB: nat)
    requires version < 16 && randA < RAND_A_LIMIT && variant < 4 && randB < RAND_B_LIMIT
    ensures ReadUuid(Nested(unixMs, version, randA, variant, randB))
         == UuidFields(unixMs % MS_LIMIT, version, randA, variant, randB)
  {
    var ms := unixMs % MS_LIMIT;
    var x := ms * 16 + version;
    Unnest((x * RAND_A_LIMIT + randA) * 4 + variant, randB, x * RAND_A_LIMIT + randA, variant, 4, RAND_B_LIMIT);
    Unnest(x * RAND_A_LIMIT + randA, variant, x, randA, RAND_A_LIMIT, 4);
    Peel(ms, version, 16);
  }

  lemma Unnest(z: int, low: nat, y: int, high: nat, m: nat, n: nat)
    requires low < n && high < m && z == y * m + high
    ensures (z * n + low) % n == low && (z * n + low) / n == z && z % m == high && z / m == y
  {
    Peel(z, low, n);
    Peel(y, high, m);
  }

  /** A later millisecond gives a larger value, and a larger numeral of 32 hexadecimal digits. */
  lemma Uuid7Order(version: nat, variant: nat, ms1: nat, ms2: nat, a1: nat, a2: nat, b1: nat, b2: nat)
    requires version == 7 && variant == 2 && ms1 < ms2 < MS_LIMIT
    requires a1 < RAND_A_LIMIT && a2 < RAND_A_LIMIT && b1 < RAND_B_LIMIT && b2 < RAND_B_LIMIT
    ensures 0 <= Layout(ms1, version, a1, variant, b1) < Layout(ms2, version, a2, variant, b2)
    ensures LexLess(Hex(Layout(ms1, version, a1, variant, b1), 32), Hex(Layout(ms2, version, a2, variant, b2), 32))
  {
    LayoutIsNested(ms1, version, a1, variant, b1);
    LayoutIsNested(ms2, version, a2, variant, b2);
    NestedOrder(version, variant, ms1, ms2, a1, a2, b1, b2);
    HexOrder(Nested(ms1, version, a1, variant, b1), Nested(ms2, version, a2, variant, b2), 32);
  }

  lemma NestedOrder(version: nat, variant: nat, ms1: nat, ms2: nat, a1: nat, a2: nat, b1: nat, b2: nat)
    requires version < 16 && variant < 4 && ms1 < ms2 < MS_LIMIT
    requires a1 < RAND_A_LIMIT && a2 < RAND_A_LIMIT && b1 < RAND_B_LIMIT && b2 < RAND_B_LIMIT
    ensures 0 <= Nested(ms1, version, a1, variant, b1) < Nested(ms2, version, a2, variant, b2) < Pow16(32)
  {
    Pow16Of32();
  }

  lemma Pow16Of32()
    ensures Pow16(32) == MS_LIMIT * 16 * RAND_A_LIMIT * 4 * RAND_B_LIMIT
  {
    assert Pow16(8) == 0x1_0000_0000;
    assert Pow16(16) == 0x1_0000_0000_0000_0000;
    assert Pow16(24) == 0x1_0000_0000_0000_0000_0000_0000;
  }

  /** The value written with `width` hexadecimal digits, most significant first. */
  function Hex(value: int, width: nat): seq<int>
    decreases width
  {
    if width == 0 then [] else Hex(value / 16, width - 1) + [value % 16]
  }

  ghost predicate LexLess(a: seq<int>, b: seq<int>) {
    exists k :: 0 <= k < |a| && k < |b| && a[..k] == b[..k] && a[k] < b[k]
  }

  lemma {:induction false} HexDigits(value: nat, width: nat)
    ensures |Hex(value, width)| == width
    ensures forall d :: d in Hex(value, width) ==> d < 16
  {
    if width > 0 {
      HexDigits(value / 16, width - 1);
    }
  }

  function Pow16(n: nat): (p: nat)
    ensures p >= 1
  {
    if n == 0 then 1 else 16 * Pow16(n - 1)
  }

  lemma LexLessLast(s: seq<int>, x: int, y: int)
    requires x < y
    ensures LexLess(s + [x], s + [y])
  {
    assert (s + [x])[..|s|] == s && (s + [y])[..|s|] == s;
  }

  lemma LexLessMore(a: seq<int>, b: seq<int>, x: seq<int>, y: seq<int>)
    requires LexLess(a, b)
    ensures LexLess(a + x, b + y)
  {
    var k :| 0 <= k < |a| && k < |b| && a[..k] == b[..k] && a[k] < b[k];
    assert (a + x)[..k] == a[..k] && (b + y)[..k] == b[..k];
  }

  /** Fixed-width numerals compare as their values do. */
  lemma {:induction false} HexOrder(a: nat, b: nat, width: nat)
    requires a < b < Pow16(width)
    ensures LexLess(Hex(a, width), Hex(b, width))
  {
    if width == 0 {
    } else {
      HexDigits(a / 16, width - 1);
      HexDigits(b / 16, width - 1);
      var ha, hb := Hex(a / 16, width - 1), Hex(b / 16, width - 1);
      if a / 16 == b / 16 {
        LexLessLast(ha, a % 16, b % 16);
      } else {
        HexOrder(a / 16, b / 16, width - 1);
        LexLessMore(ha, hb, [a % 16], [b % 16]);
      }
    }
  }
}
