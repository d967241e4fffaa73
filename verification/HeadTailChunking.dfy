/**
 How far the chunking decides what `head_tail` framing delivers: for every chunking, exactly
 which ends of reads keep a stream of frames from coming out whole.
 */
module HeadTailChunking {
  import opened Common
  import opened Bytes
  import opened LineFraming
  import opened HeadTailFraming

  // ------------------------------------------------------------------ too few bytes

  function Weight(d: Delimiters, frames: seq<bytes>): nat {
    if frames == [] then 0 else |d.head| + |frames[0]| + |d.tail| + Weight(d, frames[1..])
  }

  lemma {:induction false} InterleavedLength(d: Delimiters, gaps: seq<bytes>, frames: seq<bytes>)
    requires |gaps| == |frames|
    ensures |Interleaved(d, gaps, frames)| >= Weight(d, frames)
  {
    if frames != [] {
      InterleavedLength(d, gaps[1..], frames[1..]);
    }
  }

  /** Too few bytes are left for the payloads to be delivered. */
  lemma TooFewBytes(d: Delimiters, max: nat, buffer: bytes, chunks: seq<bytes>, resyncs: nat, payloads: seq<bytes>)
    requires d.Valid() && |buffer| + |Flatten(chunks)| < Weight(d, payloads)
    ensures HeadTailRun(d, max, buffer, chunks, resyncs).frames != payloads
  {
    HeadTailSound(d, max, buffer, chunks, resyncs);
    var frames := HeadTailRun(d, max, buffer, chunks, resyncs).frames;
    var gaps: seq<bytes>, rest: bytes :|
      |gaps| == |frames| && buffer + Flatten(chunks) == Interleaved(d, gaps, frames) + rest;
    InterleavedLength(d, gaps, frames);
  }

  /** Every frame is delimited, and there is no garbage but in front of the first. */
  ghost predicate Packed(d: Delimiters, frames: seq<Sent>) {
    && (forall f :: f in frames ==> f.Delimited(d))
    && (forall i :: 1 <= i < |frames| ==> frames[i].garbage == [])
  }

  lemma {:induction false} WireWeighs(d: Delimiters, frames: seq<Sent>)
    requires forall f :: f in frames ==> f.garbage == []
    ensures Weight(d, Payloads(frames)) == |Wire(d, frames)|
  {
    if frames != [] {
      assert frames[0] in frames;
      WireWeighs(d, frames[1..]);
      assert Payloads(frames)[1..] == Payloads(frames[1..]);
    }
  }


  // ------------------------------------------------------------------ where a read must not end

  /** A second head is complete in the first `m` bytes of the frame. */
  predicate SecondHeadIn(d: Delimiters, f: Sent, m: nat)
    requires m <= |f.Frame(d)|
  {
    Find(f.Frame(d)[..m], d.head, |d.head|) >= 0
  }

  /** A read that ends behind `n` bytes of the frame and its garbage fails a check there. */
  predicate BadInside(d: Delimiters, max: nat, f: Sent, n: nat)
    requires n < |f.Wire(d)|
  {
    if n < |f.garbage| + |d.head| then n > max
    else n - |f.garbage| > max || SecondHeadIn(d, f, n - |f.garbage|)
  }

  predicate BadEnd(d: Delimiters, max: nat, frames: seq<Sent>, n: nat)
    decreases |frames|
  {
    frames != [] &&
    if n < |frames[0].Wire(d)| then BadInside(d, max, frames[0], n)
    else BadEnd(d, max, frames[1..], n - |frames[0].Wire(d)|)
  }

  /** With `n` bytes received, no read ends badly from here on. */
  predicate ReadsFine(d: Delimiters, max: nat, frames: seq<Sent>, n: nat, chunks: seq<bytes>)
    decreases |chunks|
  {
    !BadEnd(d, max, frames, n) && (chunks != [] ==> ReadsFine(d, max, frames, n + |chunks[0]|, chunks[1..]))
  }

  predicate AllShort(frames: seq<Sent>, max: nat) {
    forall f :: f in frames ==> |f.payload| <= max
  }

  /** In other words: no read, counted from here, ends where it must not. */
  lemma {:induction false} ReadsFineMeans(d: Delimiters, max: nat, frames: seq<Sent>, n: nat, chunks: seq<bytes>)
    ensures ReadsFine(d, max, frames, n, chunks)
       <==> forall k :: 0 <= k <= |chunks| ==> !BadEnd(d, max, frames, n + |Flatten(chunks[..k])|)
    decreases |chunks|
  {
    assert chunks[..0] == [] && Flatten([]) == [];
    if chunks == [] {
      assert forall k :: 0 <= k <= |chunks| ==> chunks[..k] == [];
    } else {
      var m := n + |chunks[0]|;
      ReadsFineMeans(d, max, frames, m, chunks[1..]);
      forall k | 1 <= k <= |chunks|
        ensures n + |Flatten(chunks[..k])| == m + |Flatten(chunks[1..][..k - 1])|
      {
        assert chunks[..k][1..] == chunks[1..][..k - 1];
      }
      forall k | 0 <= k <= |chunks[1..]|
        ensures n + |Flatten(chunks[..k + 1])| == m + |Flatten(chunks[1..][..k])|
      {
        assert chunks[..k + 1][1..] == chunks[1..][..k];
      }
    }
  }

  /** Behind the first frame only the others matter. */
  lemma {:induction false} FinePast(d: Delimiters, max: nat, frames: seq<Sent>, n: nat, chunks: seq<bytes>)
    requires frames != [] && n >= |frames[0].Wire(d)|
    ensures ReadsFine(d, max, frames, n, chunks)
       <==> ReadsFine(d, max, frames[1..], n - |frames[0].Wire(d)|, chunks)
    decreases |chunks|
  {
    if chunks != [] {
      FinePast(d, max, frames, n + |chunks[0]|, chunks[1..]);
    }
  }

  /** Behind the first head its garbage no longer matters. */
  lemma {:induction false} FineWithout(
    d: Delimiters, max: nat, frames: seq<Sent>, clean: seq<Sent>, n: nat, chunks: seq<bytes>)
    requires frames != [] && clean == [Sent([], frames[0].payload)] + frames[1..]
    requires n >= |frames[0].garbage| + |d.head|
    ensures ReadsFine(d, max, frames, n, chunks)
       <==> ReadsFine(d, max, clean, n - |frames[0].garbage|, chunks)
    decreases |chunks|
  {
    assert clean[1..] == frames[1..] && clean[0].Frame(d) == frames[0].Frame(d);
    if chunks != [] {
      FineWithout(d, max, frames, clean, n + |chunks[0]|, chunks[1..]);
    }
  }

  // ------------------------------------------------------------------ every chunking

  /** The run brings all payloads out. */
  ghost predicate Whole(d: Delimiters, max: nat, frames: seq<Sent>, b: bytes, chunks: seq<bytes>, resyncs: nat)
    requires d.Valid()
  {
    HeadTailRun(d, max, b, chunks, resyncs).frames == Payloads(frames)
  }

  ghost predicate Arriving(d: Delimiters, frames: seq<Sent>, b: bytes, chunks: seq<bytes>) {
    d.Valid() && Packed(d, frames) && ValidChunks(chunks) && b + Flatten(chunks) == Wire(d, frames)
  }

  ghost predicate Exact(d: Delimiters, max: nat, frames: seq<Sent>, b: bytes, chunks: seq<bytes>, resyncs: nat)
    requires d.Valid()
  {
    Whole(d, max, frames, b, chunks, resyncs) <==> AllShort(frames, max) && ReadsFine(d, max, frames, |b|, chunks)
  }

  lemma {:induction false} ByReads(
    d: Delimiters, max: nat, frames: seq<Sent>, b: bytes, chunks: seq<bytes>, resyncs: nat)
    requires Arriving(d, frames, b, chunks)
    ensures Exact(d, max, frames, b, chunks, resyncs)
    decreases |chunks|, |b|, 1
  {
    if frames == [] {
      Nothing(d, max, b, chunks, resyncs);
    } else if |b| < |frames[0].garbage| + |d.head| {
      StillGarbage(d, frames, b, chunks);
      if |b| <= max {
        ByReads(d, max, frames, b + chunks[0], chunks[1..], resyncs);
      }
      GarbageByReads(d, max, frames, b, chunks, resyncs);
    } else {
      var clean := [Sent([], frames[0].payload)] + frames[1..];
      HeadIsThere(d, frames, clean, b, chunks);
      ByHead(d, max, clean, b[|frames[0].garbage|..], chunks, resyncs);
      HeadByReads(d, max, frames, clean, b, chunks, resyncs);
    }
  }

  /** The same once the first frame's head is at the front of the buffer. */
  lemma {:induction false} ByHead(
    d: Delimiters, max: nat, frames: seq<Sent>, c: bytes, chunks: seq<bytes>, resyncs: nat)
    requires Arriving(d, frames, c, chunks) && frames != [] && frames[0].garbage == [] && |c| >= |d.head|
    ensures Exact(d, max, frames, c, chunks, resyncs)
    decreases |chunks|, |c|, 0
  {
    var f, more, behind := frames[0], Flatten(chunks), Wire(d, frames[1..]);
    FirstFrame(d, frames);
    StartsWithHead(d, f, c, more, behind);
    assert c[0..] == c;
    if |c| >= |f.Frame(d)| {
      TailArrived(d, f, c, more, behind);
      var rest := c[|d.head| + |f.payload| + |d.tail|..];
      if |f.payload| <= max {
        ByReads(d, max, frames[1..], rest, chunks, 0);
      }
      FrameByReads(d, max, frames, c, rest, chunks, resyncs);
    } else {
      NoTailYet(d, f, c, more, behind);
      FramePrefix(d, f, c, more, behind);
      MoreToCome(c, chunks, Wire(d, frames));
      if Find(c, d.head, |d.head|) < 0 && |c| <= max {
        ByHead(d, max, frames, c + chunks[0], chunks[1..], resyncs);
      }
      TailByReads(d, max, frames, c, chunks, resyncs);
    }
  }

  lemma GarbageByReads(d: Delimiters, max: nat, frames: seq<Sent>, b: bytes, chunks: seq<bytes>, resyncs: nat)
    requires d.Valid() && frames != [] && |b| < |frames[0].garbage| + |d.head|
    requires Find(b, d.head, 0) < 0 && chunks != []
    requires |b| <= max ==> Exact(d, max, frames, b + chunks[0], chunks[1..], resyncs)
    ensures Exact(d, max, frames, b, chunks, resyncs)
  {
    if |b| <= max {
      WaitsForHead(d, max, b, chunks, resyncs);
    } else {
      NeverSees(d, max, b, chunks, resyncs);
    }
  }

  lemma HeadByReads(
    d: Delimiters, max: nat, frames: seq<Sent>, clean: seq<Sent>, b: bytes, chunks: seq<bytes>, resyncs: nat)
    requires d.Valid() && frames != [] && clean == [Sent([], frames[0].payload)] + frames[1..]
    requires |b| >= |frames[0].garbage| + |d.head| && Find(b, d.head, 0) == |frames[0].garbage|
    requires Exact(d, max, clean, b[|frames[0].garbage|..], chunks, resyncs)
    ensures Exact(d, max, frames, b, chunks, resyncs)
  {
    WholeWithout(d, max, frames, clean, b, chunks, resyncs);
    FineWithout(d, max, frames, clean, |b|, chunks);
  }

  lemma WholeWithout(
    d: Delimiters, max: nat, frames: seq<Sent>, clean: seq<Sent>, b: bytes, chunks: seq<bytes>, resyncs: nat)
    requires d.Valid() && frames != [] && clean == [Sent([], frames[0].payload)] + frames[1..]
    requires Find(b, d.head, 0) == |frames[0].garbage|
    ensures Whole(d, max, frames, b, chunks, resyncs) <==> Whole(d, max, clean, b[|frames[0].garbage|..], chunks, resyncs)
    ensures AllShort(clean, max) <==> AllShort(frames, max)
  {
    DropGarbage(d, max, b, chunks, resyncs);
    SamePayloads(frames, clean, max);
  }

  lemma FrameTaken(
    d: Delimiters, max: nat, frames: seq<Sent>, c: bytes, rest: bytes, chunks: seq<bytes>, resyncs: nat)
    requires d.Valid() && frames != [] && |frames[0].payload| <= max && |c| == |frames[0].Wire(d)| + |rest|
    requires HeadTailRun(d, max, c, chunks, resyncs) == HeadTailRun(d, max, rest, chunks, 0).Before(frames[0].payload)
    requires Exact(d, max, frames[1..], rest, chunks, 0)
    ensures Exact(d, max, frames, c, chunks, resyncs)
  {
    FinePast(d, max, frames, |c|, chunks);
    WholeCons(d, max, frames, c, rest, chunks, resyncs);
  }

  lemma FrameByReads(
    d: Delimiters, max: nat, frames: seq<Sent>, c: bytes, rest: bytes, chunks: seq<bytes>, resyncs: nat)
    requires d.Valid() && frames != [] && frames[0].garbage == [] && |c| >= |frames[0].Frame(d)|
    requires Find(c, d.head, 0) == 0 && c[0..] == c && rest == c[|frames[0].Frame(d)|..]
    requires var t := Find(c, d.tail, |d.head|); t == |d.head| + |frames[0].payload| && c[|d.head|..t] == frames[0].payload
    requires |frames[0].payload| <= max ==> Exact(d, max, frames[1..], rest, chunks, 0)
    ensures Exact(d, max, frames, c, chunks, resyncs)
  {
    if |frames[0].payload| <= max {
      Delivers(d, max, c, chunks, resyncs);
      FrameTaken(d, max, frames, c, rest, chunks, resyncs);
    } else {
      PayloadTooLong(d, max, c, chunks, resyncs);
    }
  }

  lemma TailByReads(d: Delimiters, max: nat, frames: seq<Sent>, c: bytes, chunks: seq<bytes>, resyncs: nat)
    requires Arriving(d, frames, c, chunks) && frames != [] && frames[0].garbage == [] && chunks != []
    requires |d.head| <= |c| < |frames[0].Frame(d)| && c == frames[0].Frame(d)[..|c|]
    requires Find(c, d.head, 0) == 0 && c[0..] == c && Find(c, d.tail, |d.head|) < 0
    requires Find(c, d.head, |d.head|) < 0 && |c| <= max ==> Exact(d, max, frames, c + chunks[0], chunks[1..], resyncs)
    ensures Exact(d, max, frames, c, chunks, resyncs)
  {
    if Find(c, d.head, |d.head|) >= 0 {
      LosesBytes(d, max, frames, c, chunks, resyncs);
    } else if |c| <= max {
      WaitsForTail(d, max, c, chunks, resyncs);
    } else {
      BufferTooLong(d, max, c, chunks, resyncs);
    }
  }

  lemma Nothing(d: Delimiters, max: nat, b: bytes, chunks: seq<bytes>, resyncs: nat)
    requires Arriving(d, [], b, chunks)
    ensures Whole(d, max, [], b, chunks, resyncs) && ReadsFine(d, max, [], |b|, chunks)
  {
    assert b == [] && Flatten(chunks) == [];
    assert chunks == [];
    assert Find([], d.head, 0) < 0;
  }

  lemma FirstFrame(d: Delimiters, frames: seq<Sent>)
    requires Packed(d, frames) && frames != []
    ensures frames[0].Delimited(d) && Packed(d, frames[1..])
    ensures Wire(d, frames) == frames[0].Wire(d) + Wire(d, frames[1..])
    ensures frames[0].garbage == [] ==>
              frames[0].Wire(d) == frames[0].Frame(d) && forall f :: f in frames ==> f.garbage == []
  {
    assert frames[0] in frames;
  }

  lemma StillGarbage(d: Delimiters, frames: seq<Sent>, b: bytes, chunks: seq<bytes>)
    requires Arriving(d, frames, b, chunks) && frames != [] && |b| < |frames[0].garbage| + |d.head|
    ensures Find(b, d.head, 0) < 0 && chunks != [] && Arriving(d, frames, b + chunks[0], chunks[1..])
  {
    FirstFrame(d, frames);
    NoHeadYet(d, frames[0], b, Flatten(chunks), Wire(d, frames[1..]));
    MoreToCome(b, chunks, Wire(d, frames));
  }

  lemma HeadIsThere(d: Delimiters, frames: seq<Sent>, clean: seq<Sent>, b: bytes, chunks: seq<bytes>)
    requires Arriving(d, frames, b, chunks) && frames != [] && |b| >= |frames[0].garbage| + |d.head|
    requires clean == [Sent([], frames[0].payload)] + frames[1..]
    ensures Find(b, d.head, 0) == |frames[0].garbage|
    ensures Arriving(d, clean, b[|frames[0].garbage|..], chunks)
  {
    var f, g := frames[0], clean[0];
    FirstFrame(d, frames);
    HeadArrived(d, f, b, Flatten(chunks), Wire(d, frames[1..]));
    assert clean[1..] == frames[1..];
    assert g.Frame(d) == f.Frame(d) && g.Wire(d) == g.Frame(d);
    assert g.Delimited(d);
  }

  lemma SamePayloads(frames: seq<Sent>, clean: seq<Sent>, max: nat)
    requires frames != [] && clean == [Sent([], frames[0].payload)] + frames[1..]
    ensures Payloads(clean) == Payloads(frames) && (AllShort(clean, max) <==> AllShort(frames, max))
  {
    assert clean[1..] == frames[1..];
    assert frames == [frames[0]] + frames[1..];
    assert clean[0] in clean && frames[0] in frames;
  }

  lemma WholeCons(
    d: Delimiters, max: nat, frames: seq<Sent>, c: bytes, rest: bytes, chunks: seq<bytes>, resyncs: nat)
    requires d.Valid() && frames != [] && |frames[0].payload| <= max
    requires HeadTailRun(d, max, c, chunks, resyncs) == HeadTailRun(d, max, rest, chunks, 0).Before(frames[0].payload)
    ensures Whole(d, max, frames, c, chunks, resyncs) <==> Whole(d, max, frames[1..], rest, chunks, 0)
    ensures AllShort(frames, max) <==> AllShort(frames[1..], max)
  {
    var run := HeadTailRun(d, max, rest, chunks, 0).frames;
    assert ([frames[0].payload] + run)[1..] == run && Payloads(frames)[1..] == Payloads(frames[1..]);
    assert frames == [frames[0]] + frames[1..];
  }

  lemma PayloadTooLong(d: Delimiters, max: nat, c: bytes, chunks: seq<bytes>, resyncs: nat)
    requires d.Valid() && Find(c, d.head, 0) == 0 && c[0..] == c && Find(c, d.tail, |d.head|) > |d.head| + max
    ensures HeadTailRun(d, max, c, chunks, resyncs) == Session([], TooLong, 0)
  {
  }

  lemma BufferTooLong(d: Delimiters, max: nat, c: bytes, chunks: seq<bytes>, resyncs: nat)
    requires d.Valid() && Find(c, d.head, 0) == 0 && c[0..] == c && |c| > max
    requires Find(c, d.tail, |d.head|) < 0 && Find(c, d.head, |d.head|) < 0
    ensures HeadTailRun(d, max, c, chunks, resyncs) == Session([], TooLong, 0)
  {
  }

  lemma FramePrefix(d: Delimiters, f: Sent, c: bytes, more: bytes, behind: bytes)
    requires c + more == f.Frame(d) + behind && |c| < |f.Frame(d)|
    ensures c == f.Frame(d)[..|c|]
  {
    assert c == (c + more)[..|c|];
  }

  /** A resync gives bytes away, and the payloads need them all. */
  lemma LosesBytes(d: Delimiters, max: nat, frames: seq<Sent>, c: bytes, chunks: seq<bytes>, resyncs: nat)
    requires Arriving(d, frames, c, chunks) && frames != [] && frames[0].garbage == []
    requires Find(c, d.head, 0) == 0 && c[0..] == c && Find(c, d.tail, |d.head|) < 0 && Find(c, d.head, |d.head|) >= 0
    ensures !Whole(d, max, frames, c, chunks, resyncs)
  {
    var inner := Find(c, d.head, |d.head|);
    FirstFrame(d, frames);
    WireWeighs(d, frames);
    if resyncs + 1 <= MAX_FRAME_RESYNCS {
      TooFewBytes(d, max, c[inner..], chunks, resyncs + 1, Payloads(frames));
    }
  }

  /**
   A chunking brings a stream of frames out whole if and only if no payload is too long and no
   read ends where the bytes received so far fail a check of the frame they stop in.
   */
  lemma HeadTailChunkingIff(d: Delimiters, max: nat, frames: seq<Sent>, chunks: seq<bytes>)
    requires d.Valid() && Packed(d, frames) && ValidChunks(chunks) && Flatten(chunks) == Wire(d, frames)
    ensures HeadTailRun(d, max, [], chunks, 0).frames == Payloads(frames)
       <==> (AllShort(frames, max) && forall k :: 0 <= k <= |chunks| ==> !BadEnd(d, max, frames, |Flatten(chunks[..k])|))
  {
    assert [] + Flatten(chunks) == Wire(d, frames);
    ByReads(d, max, frames, [], chunks, 0);
    ReadsFineMeans(d, max, frames, 0, chunks);
  }

  // ------------------------------------------------------------------ one frame, some chunking

  /** For one frame the ends that matter are those in front of its last byte. */
  lemma FrameChunkingIff(d: Delimiters, max: nat, f: Sent, chunks: seq<bytes>)
    requires d.Valid() && f.Delimited(d) && ValidChunks(chunks) && Flatten(chunks) == f.Wire(d)
    ensures HeadTailRun(d, max, [], chunks, 0).frames == [f.payload]
       <==> (|f.payload| <= max && ReadsFine(d, max, [f], 0, chunks))
  {
    OneFrame(d, f);
    assert [] + Flatten(chunks) == Wire(d, [f]);
    ByReads(d, max, [f], [], chunks, 0);
  }

  /** Up to here a read may end in front of the frame's head. */
  function LastInFront(d: Delimiters, max: nat, f: Sent): int {
    Min(max, |f.garbage| + |d.head| - 1)
  }

  /** Up to here it may end behind it. */
  function LastInside(d: Delimiters, max: nat, f: Sent): int {
    var second := Find(f.Frame(d), d.head, |d.head|);
    |f.garbage| + Min(max, if second >= 0 then Min(second + |d.head|, |f.Frame(d)|) - 1 else |f.Frame(d)| - 1)
  }

  lemma SecondHeadFrom(d: Delimiters, f: Sent, m: nat)
    requires m < |f.Frame(d)|
    ensures var second := Find(f.Frame(d), d.head, |d.head|);
            SecondHeadIn(d, f, m) <==> 0 <= second <= m - |d.head|
  {
    var frame := f.Frame(d);
    var front, back := frame[..m], frame[m..];
    assert frame == front + back;
    var second := Find(frame, d.head, |d.head|);
    if SecondHeadIn(d, f, m) {
      FindStable(front, back, d.head, |d.head|);
    } else if 0 <= second <= m - |d.head| {
      OccursInPrefix(front, back, d.head, second);
    }
  }

  lemma SafeEnds(d: Delimiters, max: nat, f: Sent, n: nat)
    requires n < |f.Wire(d)|
    ensures !BadInside(d, max, f, n)
       <==> (n <= LastInFront(d, max, f) || |f.garbage| + |d.head| <= n <= LastInside(d, max, f))
  {
    if n >= |f.garbage| + |d.head| {
      SecondHeadFrom(d, f, n - |f.garbage|);
    }
  }

  /** Reads of at most one chunk can step over the ends they must avoid. */
  predicate Passable(d: Delimiters, max: nat, f: Sent) {
    var last, head, end := LastInFront(d, max, f), |f.garbage| + |d.head|, |f.Wire(d)|;
    || end - last <= RECV_CHUNK
    || (|d.head| <= max && head - last <= RECV_CHUNK && end - LastInside(d, max, f) <= RECV_CHUNK)
  }

  lemma {:induction false} FineMeansPassable(d: Delimiters, max: nat, f: Sent, n: nat, chunks: seq<bytes>)
    requires ValidChunks(chunks) && ReadsFine(d, max, [f], n, chunks)
    requires n < |f.Wire(d)| == n + |Flatten(chunks)|
    ensures n <= LastInFront(d, max, f) ==> Passable(d, max, f)
    ensures n > LastInFront(d, max, f) ==> |f.Wire(d)| - LastInside(d, max, f) <= RECV_CHUNK
    decreases |chunks|
  {
    assert [f][1..] == [];
    SafeEnds(d, max, f, n);
    var next := n + |chunks[0]|;
    if next < |f.Wire(d)| {
      FineMeansPassable(d, max, f, next, chunks[1..]);
      SafeEnds(d, max, f, next);
    }
  }

  /** The reads that step over those ends, one byte at a time but for two of them. */
  function Stepping(d: Delimiters, max: nat, f: Sent): seq<bytes>
    requires d.Valid() && Passable(d, max, f)
  {
    var last, s := LastInFront(d, max, f), f.Wire(d);
    if |s| - last <= RECV_CHUNK then Last(s, 0, last)
    else Bytewise(s[..last]) + Leap(s, last, |f.garbage| + |d.head|, LastInside(d, max, f))
  }

  /** From `i` byte by byte to `j`, and the rest in one read. */
  function Last(s: bytes, i: nat, j: nat): seq<bytes>
    requires i <= j <= |s|
  {
    Bytewise(s[i..j]) + [s[j..]]
  }

  /** From `i` to `j` in one read, byte by byte to `k`, and the rest in one read. */
  function Leap(s: bytes, i: nat, j: nat, k: nat): seq<bytes>
    requires i <= j <= k <= |s|
  {
    [s[i..j]] + Last(s, j, k)
  }

  /** Reading on byte by byte ends badly nowhere, if each end on the way is fine. */
  lemma {:induction false} FineBytewise(
    d: Delimiters, max: nat, f: Sent, n: nat, front: bytes, rest: seq<bytes>)
    requires n + |front| < |f.Wire(d)| && NoneBad(d, max, f, n, n + |front|)
    requires ReadsFine(d, max, [f], n + |front|, rest)
    ensures ReadsFine(d, max, [f], n, Bytewise(front) + rest)
    decreases |front|
  {
    if front == [] {
      assert Bytewise(front) + rest == rest;
    } else {
      FineBytewise(d, max, f, n + 1, front[1..], rest);
      FineStep(d, max, f, n, [front[0]], Bytewise(front[1..]) + rest);
      OneAhead(front, rest);
    }
  }

  lemma OneAhead(front: bytes, rest: seq<bytes>)
    requires front != []
    ensures Bytewise(front) + rest == [[front[0]]] + (Bytewise(front[1..]) + rest)
  {
    BytewiseHead(front);
  }

  ghost predicate NoneBad(d: Delimiters, max: nat, f: Sent, lo: nat, hi: nat) {
    hi < |f.Wire(d)| && forall m :: lo <= m <= hi ==> !BadInside(d, max, f, m)
  }

  lemma FineLast(d: Delimiters, max: nat, f: Sent, n: nat, last: bytes)
    requires n < |f.Wire(d)| == n + |last| && !BadInside(d, max, f, n)
    ensures ReadsFine(d, max, [f], n, [last])
  {
    assert [f][1..] == [] && [last][1..] == [];
    assert !BadEnd(d, max, [f], |f.Wire(d)|);
    assert ReadsFine(d, max, [f], |f.Wire(d)|, []);
  }

  lemma FineStep(d: Delimiters, max: nat, f: Sent, n: nat, chunk: bytes, rest: seq<bytes>)
    requires n < |f.Wire(d)| && !BadInside(d, max, f, n) && ReadsFine(d, max, [f], n + |chunk|, rest)
    ensures ReadsFine(d, max, [f], n, [chunk] + rest)
  {
    assert ([chunk] + rest)[1..] == rest;
  }

  lemma SafeRange(d: Delimiters, max: nat, f: Sent, lo: nat, hi: nat)
    requires hi < |f.Wire(d)| && (hi <= LastInFront(d, max, f) || |f.garbage| + |d.head| <= lo)
    requires hi <= LastInFront(d, max, f) || hi <= LastInside(d, max, f)
    ensures NoneBad(d, max, f, lo, hi)
  {
    forall m | lo <= m <= hi ensures !BadInside(d, max, f, m) {
      SafeEnds(d, max, f, m);
    }
  }

  lemma InsideBounds(d: Delimiters, max: nat, f: Sent)
    requires d.Valid() && |d.head| <= max
    ensures |f.garbage| + |d.head| <= LastInside(d, max, f) < |f.Wire(d)|
  {
  }

  lemma FineToTheEnd(d: Delimiters, max: nat, f: Sent, i: nat, j: nat)
    requires i <= j < |f.Wire(d)| && NoneBad(d, max, f, i, j)
    ensures ReadsFine(d, max, [f], i, Last(f.Wire(d), i, j))
  {
    var s := f.Wire(d);
    FineLast(d, max, f, j, s[j..]);
    FineBytewise(d, max, f, i, s[i..j], [s[j..]]);
  }

  lemma FineLeap(d: Delimiters, max: nat, f: Sent, i: nat, j: nat, k: nat)
    requires i <= j <= k < |f.Wire(d)| && !BadInside(d, max, f, i)
    requires NoneBad(d, max, f, j, k)
    ensures ReadsFine(d, max, [f], i, Leap(f.Wire(d), i, j, k))
  {
    FineToTheEnd(d, max, f, j, k);
    FineStep(d, max, f, i, f.Wire(d)[i..j], Last(f.Wire(d), j, k));
  }

  lemma SteppingIsFine(d: Delimiters, max: nat, f: Sent)
    requires d.Valid() && Passable(d, max, f)
    ensures ReadsFine(d, max, [f], 0, Stepping(d, max, f))
  {
    var last, head, inside, s := LastInFront(d, max, f), |f.garbage| + |d.head|, LastInside(d, max, f), f.Wire(d);
    SafeRange(d, max, f, 0, last);
    if |s| - last <= RECV_CHUNK {
      FineToTheEnd(d, max, f, 0, last);
    } else {
      InsideBounds(d, max, f);
      SafeRange(d, max, f, head, inside);
      FineLeap(d, max, f, last, head, inside);
      FineBytewise(d, max, f, 0, s[..last], Leap(s, last, head, inside));
    }
  }

  lemma LastIsChunking(s: bytes, i: nat, j: nat)
    requires i <= j < |s| <= j + RECV_CHUNK
    ensures ValidChunks(Last(s, i, j)) && Flatten(Last(s, i, j)) == s[i..]
  {
    FlattenConcat(Bytewise(s[i..j]), [s[j..]]);
    assert s[i..j] + s[j..] == s[i..];
  }

  lemma LeapIsChunking(s: bytes, i: nat, j: nat, k: nat)
    requires i < j <= k < |s| && j <= i + RECV_CHUNK && |s| <= k + RECV_CHUNK
    ensures ValidChunks(Leap(s, i, j, k)) && Flatten(Leap(s, i, j, k)) == s[i..]
  {
    LastIsChunking(s, j, k);
    assert Leap(s, i, j, k)[1..] == Last(s, j, k);
    assert s[i..j] + s[j..] == s[i..];
  }

  lemma AheadIsChunking(s: bytes, i: nat, rest: seq<bytes>)
    requires i <= |s| && ValidChunks(rest) && Flatten(rest) == s[i..]
    ensures ValidChunks(Bytewise(s[..i]) + rest) && Flatten(Bytewise(s[..i]) + rest) == s
  {
    FlattenConcat(Bytewise(s[..i]), rest);
    assert s[..i] + s[i..] == s;
  }

  lemma SteppingIsChunking(d: Delimiters, max: nat, f: Sent)
    requires d.Valid() && Passable(d, max, f)
    ensures ValidChunks(Stepping(d, max, f)) && Flatten(Stepping(d, max, f)) == f.Wire(d)
  {
    var last, s := LastInFront(d, max, f), f.Wire(d);
    if |s| - last <= RECV_CHUNK {
      LastIsChunking(s, 0, last);
    } else {
      InsideBounds(d, max, f);
      LeapIsChunking(s, last, |f.garbage| + |d.head|, LastInside(d, max, f));
      AheadIsChunking(s, last, Leap(s, last, |f.garbage| + |d.head|, LastInside(d, max, f)));
    }
  }

  ghost predicate SomeRoundTrips(d: Delimiters, max: nat, f: Sent)
    requires d.Valid()
  {
    exists chunks :: ValidChunks(chunks) && Flatten(chunks) == f.Wire(d) &&
      HeadTailRun(d, max, [], chunks, 0).frames == [f.payload]
  }

  /** Exactly when some chunking delivers a frame: reads can step over the ends they must avoid. */
  lemma SomeRoundTripIff(d: Delimiters, max: nat, f: Sent)
    requires d.Valid() && f.Delimited(d)
    ensures SomeRoundTrips(d, max, f) <==> |f.payload| <= max && Passable(d, max, f)
  {
    if SomeRoundTrips(d, max, f) {
      var chunks :| ValidChunks(chunks) && Flatten(chunks) == f.Wire(d) &&
        HeadTailRun(d, max, [], chunks, 0).frames == [f.payload];
      FrameChunkingIff(d, max, f, chunks);
      FineMeansPassable(d, max, f, 0, chunks);
    }
    if |f.payload| <= max && Passable(d, max, f) {
      SteppingIsChunking(d, max, f);
      SteppingIsFine(d, max, f);
      FrameChunkingIff(d, max, f, Stepping(d, max, f));
    }
  }

  /** The chunking decides about a frame exactly if some chunking delivers it but not every one. */
  ghost predicate ChunkingDecides(d: Delimiters, max: nat, f: Sent)
    requires d.Valid()
  {
    SomeRoundTrips(d, max, f) && !AlwaysRoundTrips(d, max, f)
  }

  lemma ChunkingDecidesIff(d: Delimiters, max: nat, f: Sent)
    requires d.Valid() && f.Delimited(d)
    ensures ChunkingDecides(d, max, f) <==> |f.payload| <= max && Passable(d, max, f) && !Qualifies(d, max, f)
  {
    SomeRoundTripIff(d, max, f);
    HeadTailRoundTripIff(d, max, f);
  }

  /** STX, two bytes and CR LF against a limit of three: delivered in one read, refused byte by byte. */
  lemma FrameBothWays(d: Delimiters, f: Sent)
    requires d == Delimiters([2], [13, 10]) && f == Sent([], [65, 66])
    ensures HeadTailRun(d, 3, [], [f.Wire(d)], 0).frames == [f.payload]
    ensures HeadTailRun(d, 3, [], Bytewise(f.Wire(d)), 0).frames != [f.payload]
  {
    assert f.Wire(d) == [2, 65, 66, 13, 10];
    assert f.payload + d.tail == [65, 66, 13, 10];
    assert (f.payload + d.tail)[0..2][0] == 65 && (f.payload + d.tail)[1..3][0] == 66;
    FineLast(d, 3, f, 0, f.Wire(d));
    assert [f.Wire(d)][1..] == [];
    FrameChunkingIff(d, 3, f, [f.Wire(d)]);
    OneFrame(d, f);
    assert f in [f];
    OneBadFrame(d, 3, [f]);
  }

  /** A frame and its garbage within one read of 4096 bytes come out unless the payload is too long. */
  lemma OneReadDelivers(d: Delimiters, max: nat, f: Sent)
    requires d.Valid() && f.Delimited(d) && |f.Wire(d)| <= 4096
    ensures SomeRoundTrips(d, max, f) <==> |f.payload| <= max
  {
    SomeRoundTripIff(d, max, f);
  }

  /** Reads bring at least one byte and at most 4096. */
  lemma ChunksInWords(chunks: seq<bytes>)
    ensures ValidChunks(chunks) <==> forall i :: 0 <= i < |chunks| ==> 0 < |chunks[i]| < 4097
  {
  }
}
