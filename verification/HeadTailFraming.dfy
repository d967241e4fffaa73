/**
 `head_tail` framing: the pure run of the read loop, with its resynchronisation on a later
 head, and the round trip it guarantees.
 */
module HeadTailFraming {
  import opened Bytes
  import opened LineFraming

  /** Consecutive resyncs a connection survives. */
  const MAX_FRAME_RESYNCS := 256

  datatype Delimiters = Delimiters(head: bytes, tail: bytes) {
    predicate Valid() {
      head != [] && tail != []
    }
  }

  /** The frames cut while `chunks` arrive behind `buffer`; `resyncs` counts since the last frame. */
  function HeadTailRun(d: Delimiters, max: nat, buffer: bytes, chunks: seq<bytes>, resyncs: nat): Session
    requires d.Valid()
    decreases |chunks|, |buffer|
  {
    var h := Find(buffer, d.head, 0);
    if h < 0 then
      if |buffer| > max then Session([], TooLong, 0)
      else if chunks == [] then Session([], Closed, 0)
      else HeadTailRun(d, max, buffer + chunks[0], chunks[1..], resyncs)
    else
      var b := buffer[h..];
      var t := Find(b, d.tail, |d.head|);
      if t >= 0 then
        var payload := b[|d.head|..t];
        if |payload| > max then Session([], TooLong, 0)
        else HeadTailRun(d, max, b[t + |d.tail|..], chunks, 0).Before(payload)
      else
        var inner := Find(b, d.head, |d.head|);
        if inner >= 0 then
          if resyncs + 1 > MAX_FRAME_RESYNCS then Session([], TooManyResyncs, 1)
          else
            var s := HeadTailRun(d, max, b[inner..], chunks, resyncs + 1);
            s.(resyncs := s.resyncs + 1)
        else if |b| > max then Session([], TooLong, 0)
        else if chunks == [] then Session([], Closed, 0)
        else HeadTailRun(d, max, b + chunks[0], chunks[1..], resyncs)
  }

  // ------------------------------------------------------------------ frames as a sender writes them

  /** A frame on the wire, behind bytes that belong to no frame. */
  datatype Sent = Sent(garbage: bytes, payload: bytes) {
    function Frame(d: Delimiters): bytes {
      d.head + payload + d.tail
    }

    function Wire(d: Delimiters): bytes {
      garbage + Frame(d)
    }

    /** The head first occurs behind the garbage, the tail behind the payload. */
    ghost predicate Delimited(d: Delimiters) {
      && (forall j :: 0 <= j < |garbage| ==> !OccursAt(garbage + d.head, d.head, j))
      && (forall j :: 0 <= j < |payload| ==> !OccursAt(payload + d.tail, d.tail, j))
    }

    /** No second head is complete before the frame's last byte. */
    ghost predicate HeadOnlyInFront(d: Delimiters) {
      forall j :: |d.head| <= j && j + |d.head| < |Frame(d)| ==> !OccursAt(Frame(d), d.head, j)
    }

    /** The size checks, which see delimiter bytes while a frame is incomplete. */
    predicate Fits(d: Delimiters, max: nat) {
      |garbage| + |d.head| - 1 <= max && |Frame(d)| - 1 <= max
    }
  }

  function Wire(d: Delimiters, frames: seq<Sent>): bytes {
    if frames == [] then [] else frames[0].Wire(d) + Wire(d, frames[1..])
  }

  function Payloads(frames: seq<Sent>): (payloads: seq<bytes>)
    ensures |payloads| == |frames|
    ensures forall i :: 0 <= i < |frames| ==> payloads[i] == frames[i].payload
  {
    if frames == [] then [] else [frames[0].payload] + Payloads(frames[1..])
  }

  // ------------------------------------------------------------------ one frame arriving

  /** Until the garbage and head are complete, no head is seen. */
  lemma NoHeadYet(d: Delimiters, f: Sent, buffer: bytes, more: bytes, rest: bytes)
    requires d.Valid() && f.Delimited(d) && buffer + more == f.Wire(d) + rest
    requires |buffer| < |f.garbage| + |d.head|
    ensures Find(buffer, d.head, 0) == -1
  {
    var h := Find(buffer, d.head, 0);
    if h >= 0 {
      OccursInPrefix(buffer, more, d.head, h);
      var front := f.garbage + d.head;
      assert f.Wire(d) + rest == front + (f.payload + d.tail + rest);
      OccursInPrefix(front, f.payload + d.tail + rest, d.head, h);
    }
  }

  /** Once they are, the head is found where the garbage ends. */
  lemma HeadArrived(d: Delimiters, f: Sent, buffer: bytes, more: bytes, rest: bytes)
    requires d.Valid() && f.Delimited(d) && buffer + more == f.Wire(d) + rest
    requires |buffer| >= |f.garbage| + |d.head|
    ensures Find(buffer, d.head, 0) == |f.garbage|
    ensures buffer[|f.garbage|..] + more == f.Frame(d) + rest
  {
    var front := f.garbage + d.head;
    var behind := f.payload + d.tail + rest;
    assert f.Wire(d) + rest == front + behind;
    assert buffer[..|front|] == (buffer + more)[..|front|] == front;
    assert buffer == front + buffer[|front|..];
    assert OccursAt(front, d.head, |f.garbage|);
    OccursInPrefix(front, buffer[|front|..], d.head, |f.garbage|);
    forall j | 0 <= j < |f.garbage| ensures !OccursAt(buffer, d.head, j) {
      OccursInPrefix(front, buffer[|front|..], d.head, j);
    }
    assert buffer[|f.garbage|..] + more == (buffer + more)[|f.garbage|..];
    assert (f.Wire(d) + rest)[|f.garbage|..] == f.Frame(d) + rest;
  }

  /** Before the frame's last byte, no tail is seen behind the head. */
  lemma NoTailYet(d: Delimiters, f: Sent, b: bytes, more: bytes, rest: bytes)
    requires d.Valid() && f.Delimited(d) && b + more == f.Frame(d) + rest
    requires |d.head| <= |b| < |f.Frame(d)|
    ensures Find(b, d.tail, |d.head|) == -1
  {
    var t := Find(b, d.tail, |d.head|);
    if t >= 0 {
      OccursInPrefix(b, more, d.tail, t);
      var body := f.payload + d.tail;
      assert f.Frame(d) + rest == d.head + body + rest;
      OccursInPrefix(d.head + body, rest, d.tail, t);
      assert (d.head + body)[|d.head|..] == body;
      OccursInSuffix(d.head + body, |d.head|, d.tail, t - |d.head|);
    }
  }

  /** A complete frame is cut exactly where it ends. */
  lemma TailArrived(d: Delimiters, f: Sent, b: bytes, more: bytes, rest: bytes)
    requires d.Valid() && f.Delimited(d) && b + more == f.Frame(d) + rest
    requires |b| >= |f.Frame(d)|
    ensures var t := Find(b, d.tail, |d.head|);
            t == |d.head| + |f.payload| && b[|d.head|..t] == f.payload && b[t + |d.tail|..] + more == rest
  {
    var behind := b[|f.Frame(d)|..];
    FrameInFront(d, f, b, more, rest);
    TailInFrame(d, f, behind);
    assert (f.Frame(d) + behind)[|d.head|..|d.head| + |f.payload|] == f.payload;
  }

  lemma FrameInFront(d: Delimiters, f: Sent, b: bytes, more: bytes, rest: bytes)
    requires b + more == f.Frame(d) + rest && |b| >= |f.Frame(d)|
    ensures b == f.Frame(d) + b[|f.Frame(d)|..] && b[|f.Frame(d)|..] + more == rest
  {
    var n := |f.Frame(d)|;
    assert b[..n] == (b + more)[..n] == f.Frame(d);
    assert b[n..] + more == (b + more)[n..];
    assert (f.Frame(d) + rest)[n..] == rest;
  }

  lemma TailInFrame(d: Delimiters, f: Sent, behind: bytes)
    requires d.Valid() && f.Delimited(d)
    ensures Find(f.Frame(d) + behind, d.tail, |d.head|) == |d.head| + |f.payload|
  {
    var frame, body, t := f.Frame(d), f.payload + d.tail, |d.head| + |f.payload|;
    assert frame[|d.head|..] == body;
    OccursInSuffix(frame, |d.head|, d.tail, |f.payload|);
    assert OccursAt(body, d.tail, |f.payload|);
    OccursInPrefix(frame, behind, d.tail, t);
    forall j | |d.head| <= j < t ensures !OccursAt(frame + behind, d.tail, j) {
      OccursInPrefix(frame, behind, d.tail, j);
      OccursInSuffix(frame, |d.head|, d.tail, j - |d.head|);
    }
    FindIs(frame + behind, d.tail, |d.head|, t);
  }

  /** An incomplete frame shows no second head, unless the frame holds one. */
  lemma NoInnerHead(d: Delimiters, f: Sent, b: bytes, more: bytes, rest: bytes)
    requires d.Valid() && f.HeadOnlyInFront(d) && b + more == f.Frame(d) + rest
    requires |b| < |f.Frame(d)|
    ensures Find(b, d.head, |d.head|) == -1
  {
    var inner := Find(b, d.head, |d.head|);
    if inner >= 0 {
      OccursInPrefix(b, more, d.head, inner);
      OccursInPrefix(f.Frame(d), rest, d.head, inner);
    }
  }

  // ------------------------------------------------------------------ the round trip

  /**
   Under every chunking, a stream of well-formed frames is delivered payload by payload, in
   order, without a resync, and the connection then ends with the peer's close.
   */
  lemma {:induction false} HeadTailRoundTrip(
    d: Delimiters, max: nat, frames: seq<Sent>, buffer: bytes, chunks: seq<bytes>, resyncs: nat)
    requires d.Valid() && ValidChunks(chunks)
    requires forall f :: f in frames ==> f.Delimited(d) && f.HeadOnlyInFront(d) && f.Fits(d, max)
    requires buffer + Flatten(chunks) == Wire(d, frames)
    ensures HeadTailRun(d, max, buffer, chunks, resyncs) == Session(Payloads(frames), Closed, 0)
    decreases |chunks|, |buffer|, 1
  {
    if frames == [] {
      assert buffer == [] && Flatten(chunks) == [];
      return;
    }
    var f, rest := frames[0], Wire(d, frames[1..]);
    assert f in frames;
    if |buffer| < |f.garbage| + |d.head| {
      NoHeadYet(d, f, buffer, Flatten(chunks), rest);
      MoreToCome(buffer, chunks, Wire(d, frames));
      HeadTailRoundTrip(d, max, frames, buffer + chunks[0], chunks[1..], resyncs);
      WaitsForHead(d, max, buffer, chunks, resyncs);
    } else {
      HeadArrived(d, f, buffer, Flatten(chunks), rest);
      DropGarbage(d, max, buffer, chunks, resyncs);
      GarbageGone(d, f, max, frames);
      RoundTripBehindHead(d, max, [Sent([], f.payload)] + frames[1..], buffer[|f.garbage|..], chunks, resyncs);
    }
  }

  /** The same once the first frame's head is at the front of the buffer. */
  lemma {:induction false} RoundTripBehindHead(
    d: Delimiters, max: nat, frames: seq<Sent>, b: bytes, chunks: seq<bytes>, resyncs: nat)
    requires d.Valid() && ValidChunks(chunks) && frames != [] && frames[0].garbage == [] && |b| >= |d.head|
    requires forall f :: f in frames ==> f.Delimited(d) && f.HeadOnlyInFront(d) && f.Fits(d, max)
    requires b + Flatten(chunks) == Wire(d, frames)
    ensures HeadTailRun(d, max, b, chunks, resyncs) == Session(Payloads(frames), Closed, 0)
    decreases |chunks|, |b|, 0
  {
    var f, more, rest := frames[0], Flatten(chunks), Wire(d, frames[1..]);
    assert f in frames && f.Wire(d) == f.Frame(d);
    StartsWithHead(d, f, b, more, rest);
    assert b[0..] == b;
    if |b| >= |f.Frame(d)| {
      TailArrived(d, f, b, more, rest);
      HeadTailRoundTrip(d, max, frames[1..], b[|d.head| + |f.payload| + |d.tail|..], chunks, 0);
      Delivers(d, max, b, chunks, resyncs);
    } else {
      NoTailYet(d, f, b, more, rest);
      NoInnerHead(d, f, b, more, rest);
      MoreToCome(b, chunks, Wire(d, frames));
      RoundTripBehindHead(d, max, frames, b + chunks[0], chunks[1..], resyncs);
      WaitsForTail(d, max, b, chunks, resyncs);
    }
  }

  lemma MoreToCome(buffer: bytes, chunks: seq<bytes>, s: bytes)
    requires buffer + Flatten(chunks) == s && |buffer| < |s|
    ensures chunks != [] && (buffer + chunks[0]) + Flatten(chunks[1..]) == s
  {
  }

  lemma GarbageGone(d: Delimiters, f: Sent, max: nat, frames: seq<Sent>)
    requires frames != [] && f == frames[0] && d.Valid()
    requires f.Delimited(d) && f.HeadOnlyInFront(d) && f.Fits(d, max)
    ensures var g := Sent([], f.payload);
            && g.Delimited(d) && g.HeadOnlyInFront(d) && g.Fits(d, max)
            && Wire(d, [g] + frames[1..]) == f.Frame(d) + Wire(d, frames[1..])
            && Payloads([g] + frames[1..]) == Payloads(frames)
  {
    var g := Sent([], f.payload);
    assert ([g] + frames[1..])[1..] == frames[1..];
    assert g.Frame(d) == f.Frame(d);
    assert g.Wire(d) == f.Frame(d);
  }

  // ------------------------------------------------------------------ nothing is invented

  /** Garbage-interleaved frames in front of what was never delivered. */
  function Interleaved(d: Delimiters, gaps: seq<bytes>, frames: seq<bytes>): bytes
    requires |gaps| == |frames|
  {
    if frames == [] then []
    else Sent(gaps[0], frames[0]).Wire(d) + Interleaved(d, gaps[1..], frames[1..])
  }

  /** The delivered frames, with their delimiters, lie disjoint and in order in the stream. */
  ghost predicate Embedded(d: Delimiters, frames: seq<bytes>, s: bytes) {
    exists gaps: seq<bytes>, rest: bytes ::
      |gaps| == |frames| && s == Interleaved(d, gaps, frames) + rest
  }

  lemma EmbedFirst(d: Delimiters, gap: bytes, frame: bytes, frames: seq<bytes>, s: bytes)
    requires Embedded(d, frames, s)
    ensures Embedded(d, [frame] + frames, Sent(gap, frame).Wire(d) + s)
  {
    var gaps: seq<bytes>, rest: bytes :| |gaps| == |frames| && s == Interleaved(d, gaps, frames) + rest;
    var all, fs := [gap] + gaps, [frame] + frames;
    assert all[1..] == gaps && fs[1..] == frames;
    assert Sent(gap, frame).Wire(d) + s == Interleaved(d, all, fs) + rest;
  }

  lemma EmbedSkip(d: Delimiters, skipped: bytes, frames: seq<bytes>, s: bytes)
    requires Embedded(d, frames, s)
    ensures Embedded(d, frames, skipped + s)
  {
    var gaps: seq<bytes>, rest: bytes :| |gaps| == |frames| && s == Interleaved(d, gaps, frames) + rest;
    if frames == [] {
      assert skipped + s == Interleaved(d, [], []) + (skipped + s);
    } else {
      var all := [skipped + gaps[0]] + gaps[1..];
      assert all[1..] == gaps[1..];
      assert Sent(skipped + gaps[0], frames[0]).Wire(d) == skipped + Sent(gaps[0], frames[0]).Wire(d);
      assert Interleaved(d, all, frames) == skipped + Interleaved(d, gaps, frames);
      assert skipped + s == Interleaved(d, all, frames) + rest;
    }
  }

  /**
   On every stream, well-formed or not, each delivered payload really stood between a head
   and a tail, and the delivered frames are disjoint and in stream order.
   */
  lemma {:induction false} HeadTailSound(d: Delimiters, max: nat, buffer: bytes, chunks: seq<bytes>, resyncs: nat)
    requires d.Valid()
    ensures Embedded(d, HeadTailRun(d, max, buffer, chunks, resyncs).frames, buffer + Flatten(chunks))
    decreases |chunks|, |buffer|, 1
  {
    var more := Flatten(chunks);
    var h := Find(buffer, d.head, 0);
    if h >= 0 {
      SoundBehindHead(d, max, buffer, chunks, resyncs);
    } else if |buffer| > max || chunks == [] {
      NothingEmbedded(d, buffer + more);
    } else {
      assert buffer + more == (buffer + chunks[0]) + Flatten(chunks[1..]);
      HeadTailSound(d, max, buffer + chunks[0], chunks[1..], resyncs);
    }
  }

  lemma {:induction false} SoundBehindHead(d: Delimiters, max: nat, buffer: bytes, chunks: seq<bytes>, resyncs: nat)
    requires d.Valid() && Find(buffer, d.head, 0) >= 0
    ensures Embedded(d, HeadTailRun(d, max, buffer, chunks, resyncs).frames, buffer + Flatten(chunks))
    decreases |chunks|, |buffer|, 0
  {
    var more := Flatten(chunks);
    var h := Find(buffer, d.head, 0);
    var b := buffer[h..];
    var t := Find(b, d.tail, |d.head|);
    var inner := Find(b, d.head, |d.head|);
    if t >= 0 && t - |d.head| <= max {
      var rest := b[t + |d.tail|..];
      HeadTailSound(d, max, rest, chunks, 0);
      SoundCut(d, buffer, more, h, t, HeadTailRun(d, max, rest, chunks, 0).frames);
    } else if t < 0 && inner >= 0 && resyncs + 1 <= MAX_FRAME_RESYNCS {
      HeadTailSound(d, max, b[inner..], chunks, resyncs + 1);
      SoundSkip(d, b, more, inner, HeadTailRun(d, max, b[inner..], chunks, resyncs + 1).frames);
      SoundSkip(d, buffer, more, h, HeadTailRun(d, max, b[inner..], chunks, resyncs + 1).frames);
    } else if t >= 0 || inner >= 0 || |b| > max || chunks == [] {
      NothingEmbedded(d, buffer + more);
    } else {
      HeadTailSound(d, max, b + chunks[0], chunks[1..], resyncs);
      assert b + more == (b + chunks[0]) + Flatten(chunks[1..]);
      SoundSkip(d, buffer, more, h, HeadTailRun(d, max, b + chunks[0], chunks[1..], resyncs).frames);
    }
  }

  lemma SoundCut(d: Delimiters, buffer: bytes, more: bytes, h: int, t: int, frames: seq<bytes>)
    requires OccursAt(buffer, d.head, h) && |d.head| <= t && OccursAt(buffer[h..], d.tail, t)
    requires Embedded(d, frames, buffer[h..][t + |d.tail|..] + more)
    ensures Embedded(d, [buffer[h..][|d.head|..t]] + frames, buffer + more)
  {
    EmbedFirst(d, buffer[..h], buffer[h..][|d.head|..t], frames, buffer[h..][t + |d.tail|..] + more);
    CutFrame(d, buffer, more, h, t);
  }

  lemma SoundSkip(d: Delimiters, buffer: bytes, more: bytes, cut: int, frames: seq<bytes>)
    requires 0 <= cut <= |buffer| && Embedded(d, frames, buffer[cut..] + more)
    ensures Embedded(d, frames, buffer + more)
  {
    EmbedSkip(d, buffer[..cut], frames, buffer[cut..] + more);
    assert buffer + more == buffer[..cut] + (buffer[cut..] + more);
  }

  lemma NothingEmbedded(d: Delimiters, s: bytes)
    ensures Embedded(d, [], s)
  {
    assert s == Interleaved(d, [], []) + s;
  }

  lemma CutFrame(d: Delimiters, buffer: bytes, more: bytes, h: int, t: int)
    requires OccursAt(buffer, d.head, h) && |d.head| <= t && OccursAt(buffer[h..], d.tail, t)
    ensures buffer + more ==
            Sent(buffer[..h], buffer[h..][|d.head|..t]).Wire(d) + (buffer[h..][t + |d.tail|..] + more)
  {
    var b := buffer[h..];
    assert b[..|d.head|] == d.head;
    assert b == d.head + b[|d.head|..t] + d.tail + b[t + |d.tail|..];
  }

  // ------------------------------------------------------------------ one turn of the loop

  /** Garbage in front of a head has no effect on the rest of the run. */
  lemma DropGarbage(d: Delimiters, max: nat, buffer: bytes, chunks: seq<bytes>, resyncs: nat)
    requires d.Valid() && Find(buffer, d.head, 0) >= 0
    ensures var h := Find(buffer, d.head, 0);
            HeadTailRun(d, max, buffer, chunks, resyncs) == HeadTailRun(d, max, buffer[h..], chunks, resyncs)
  {
    var h := Find(buffer, d.head, 0);
    OccursInSuffix(buffer, h, d.head, 0);
    FoundAtOnce(d, buffer[h..]);
    RunOfSuffix(d, max, buffer, buffer[h..], chunks, resyncs);
  }

  lemma FoundAtOnce(d: Delimiters, b: bytes)
    requires d.Valid() && OccursAt(b, d.head, 0)
    ensures Find(b, d.head, 0) == 0 && b[0..] == b
  {
  }

  lemma RunOfSuffix(d: Delimiters, max: nat, buffer: bytes, rest: bytes, chunks: seq<bytes>, resyncs: nat)
    requires d.Valid() && Find(buffer, d.head, 0) >= 0 && rest == buffer[Find(buffer, d.head, 0)..]
    requires Find(rest, d.head, 0) == 0 && rest[0..] == rest
    ensures HeadTailRun(d, max, buffer, chunks, resyncs) == HeadTailRun(d, max, rest, chunks, resyncs)
  {
  }

  lemma StartsWithHead(d: Delimiters, f: Sent, b: bytes, rest: bytes, behind: bytes)
    requires d.Valid() && b + rest == f.Frame(d) + behind && |d.head| <= |b|
    ensures Find(b, d.head, 0) == 0
  {
    assert b[..|d.head|] == (b + rest)[..|d.head|] == d.head;
    FindIs(b, d.head, 0, 0);
  }

  lemma WaitsForHead(d: Delimiters, max: nat, b: bytes, chunks: seq<bytes>, resyncs: nat)
    requires d.Valid() && Find(b, d.head, 0) < 0 && |b| <= max && chunks != []
    ensures HeadTailRun(d, max, b, chunks, resyncs) == HeadTailRun(d, max, b + chunks[0], chunks[1..], resyncs)
  {
  }

  lemma WaitsForTail(d: Delimiters, max: nat, b: bytes, chunks: seq<bytes>, resyncs: nat)
    requires d.Valid() && Find(b, d.head, 0) == 0 && b[0..] == b && |b| <= max && chunks != []
    requires Find(b, d.tail, |d.head|) < 0 && Find(b, d.head, |d.head|) < 0
    ensures HeadTailRun(d, max, b, chunks, resyncs) == HeadTailRun(d, max, b + chunks[0], chunks[1..], resyncs)
  {
  }

  lemma OneByte(buffer: bytes, rest: bytes, s: bytes)
    requires buffer + rest == s && |buffer| < |s|
    ensures rest != [] && (buffer + [rest[0]]) + rest[1..] == s
    ensures Bytewise(rest) != [] && Bytewise(rest)[0] == [rest[0]] && Bytewise(rest)[1..] == Bytewise(rest[1..])
  {
    BytewiseHead(rest);
  }

  lemma NeverSees(d: Delimiters, max: nat, b: bytes, chunks: seq<bytes>, resyncs: nat)
    requires d.Valid() && Find(b, d.head, 0) < 0 && |b| > max
    ensures HeadTailRun(d, max, b, chunks, resyncs) == Session([], TooLong, 0)
  {
  }

  // ------------------------------------------------------------------ one byte at a time

  /** A payload whose frame holds no second head before its last byte and passes its size check without it. */
  ghost predicate Clean(d: Delimiters, max: nat, payload: bytes) {
    var f := Sent([], payload);
    f.HeadOnlyInFront(d) && |f.Frame(d)| - 1 <= max
  }

  /** If the buffer completes a frame, its last byte does, and without that byte it passed both checks. */
  ghost predicate LastByteEnds(d: Delimiters, max: nat, b: bytes)
    requires d.Valid()
  {
    var h := Find(b, d.head, 0);
    h >= 0 ==> EndsLast(d, max, b[h..])
  }

  ghost predicate EndsLast(d: Delimiters, max: nat, c: bytes)
    requires d.Valid()
  {
    var t := Find(c, d.tail, |d.head|);
    t >= 0 ==> t + |d.tail| == |c| && |c| - 1 <= max && Find(c[..|c| - 1], d.head, |d.head|) < 0
  }

  /** One byte at a time only clean payloads are delivered, of any stream whatever. */
  lemma {:induction false} BytewiseClean(d: Delimiters, max: nat, b: bytes, rest: bytes, resyncs: nat)
    requires d.Valid() && LastByteEnds(d, max, b)
    ensures forall x :: x in HeadTailRun(d, max, b, Bytewise(rest), resyncs).frames ==> Clean(d, max, x)
    decreases |rest|, |b|, 1
  {
    var h := Find(b, d.head, 0);
    if h >= 0 {
      var c := b[h..];
      DropGarbage(d, max, b, Bytewise(rest), resyncs);
      OccursInSuffix(b, h, d.head, 0);
      FoundAtOnce(d, c);
      CleanBehindHead(d, max, c, rest, resyncs);
    } else if |b| <= max && rest != [] {
      BytewiseHead(rest);
      HeadEnds(d, max, b, rest[0]);
      BytewiseClean(d, max, b + [rest[0]], rest[1..], resyncs);
    }
  }

  lemma {:induction false} CleanBehindHead(d: Delimiters, max: nat, c: bytes, rest: bytes, resyncs: nat)
    requires d.Valid() && Find(c, d.head, 0) == 0 && c[0..] == c && EndsLast(d, max, c)
    ensures forall x :: x in HeadTailRun(d, max, c, Bytewise(rest), resyncs).frames ==> Clean(d, max, x)
    decreases |rest|, |c|, 0
  {
    var t, inner := Find(c, d.tail, |d.head|), Find(c, d.head, |d.head|);
    if t >= 0 {
      if t <= |d.head| + max {
        EndedClean(d, max, c, t);
        BytewiseClean(d, max, [], rest, 0);
        Delivers(d, max, c, Bytewise(rest), resyncs);
      }
    } else if inner >= 0 {
      if resyncs + 1 <= MAX_FRAME_RESYNCS {
        NoTailBehind(d, c, inner);
        CleanBehindHead(d, max, c[inner..], rest, resyncs + 1);
      }
    } else if |c| <= max && rest != [] {
      BytewiseHead(rest);
      TailEnds(d, max, c, rest[0]);
      CleanBehindHead(d, max, c + [rest[0]], rest[1..], resyncs);
      WaitsForTail(d, max, c, Bytewise(rest), resyncs);
    }
  }

  lemma EndedClean(d: Delimiters, max: nat, c: bytes, t: int)
    requires d.Valid() && OccursAt(c, d.head, 0) && EndsLast(d, max, c) && t == Find(c, d.tail, |d.head|) >= 0
    ensures Clean(d, max, c[|d.head|..t]) && c[t + |d.tail|..] == []
  {
    var f := Sent([], c[|d.head|..t]);
    assert c == d.head + c[|d.head|..t] + d.tail == f.Frame(d);
    forall j | |d.head| <= j && j + |d.head| < |c| ensures !OccursAt(c, d.head, j) {
      assert c == c[..|c| - 1] + c[|c| - 1..];
      OccursInPrefix(c[..|c| - 1], c[|c| - 1..], d.head, j);
    }
  }

  lemma NoTailBehind(d: Delimiters, c: bytes, inner: int)
    requires d.Valid() && Find(c, d.tail, |d.head|) < 0 && inner == Find(c, d.head, |d.head|) >= 0
    ensures var next := c[inner..];
            Find(next, d.head, 0) == 0 && next[0..] == next && |next| < |c| && Find(next, d.tail, |d.head|) < 0
  {
    OccursInSuffix(c, inner, d.head, 0);
    FoundAtOnce(d, c[inner..]);
    var t := Find(c[inner..], d.tail, |d.head|);
    if t >= 0 {
      OccursInSuffix(c, inner, d.tail, t);
    }
  }

  /** A head that the newest byte completes has nothing behind it. */
  lemma HeadEnds(d: Delimiters, max: nat, b: bytes, last: byte)
    requires d.Valid() && Find(b, d.head, 0) < 0
    ensures LastByteEnds(d, max, b + [last])
  {
    var h := Find(b + [last], d.head, 0);
    if h >= 0 && h + |d.head| <= |b| {
      OccursInPrefix(b, [last], d.head, h);
    }
  }

  /** A tail that the newest byte completes ends where that byte does. */
  lemma TailEnds(d: Delimiters, max: nat, c: bytes, last: byte)
    requires d.Valid() && Find(c, d.head, 0) == 0 && |c| <= max
    requires Find(c, d.tail, |d.head|) < 0 && Find(c, d.head, |d.head|) < 0
    ensures var next := c + [last]; Find(next, d.head, 0) == 0 && next[0..] == next && EndsLast(d, max, next)
  {
    var next := c + [last];
    FindStable(c, [last], d.head, 0);
    var t := Find(next, d.tail, |d.head|);
    if t >= 0 {
      if t + |d.tail| <= |c| {
        OccursInPrefix(c, [last], d.tail, t);
      }
      assert next[..|next| - 1] == c;
    }
  }

  // ------------------------------------------------------------------ the exact condition

  ghost predicate Qualifies(d: Delimiters, max: nat, f: Sent) {
    f.HeadOnlyInFront(d) && f.Fits(d, max)
  }

  /** One byte at a time, a qualifying frame comes out and leaves what is behind it untouched. */
  lemma {:induction false} GoodFirst(
    d: Delimiters, max: nat, f: Sent, b: bytes, rest: bytes, behind: bytes, resyncs: nat)
    requires d.Valid() && f.garbage == [] && f.Delimited(d) && Qualifies(d, max, f)
    requires b + rest == f.Frame(d) + behind && |b| <= |f.Frame(d)|
    ensures HeadTailRun(d, max, b, Bytewise(rest), resyncs)
         == HeadTailRun(d, max, [], Bytewise(behind), 0).Before(f.payload)
    decreases |rest|
  {
    assert f.Wire(d) == f.Frame(d);
    if |b| == |f.Frame(d)| {
      GoodDone(d, max, f, b, rest, behind, resyncs);
    } else {
      var next := b + [rest[0]];
      assert next + rest[1..] == b + rest;
      BytewiseHead(rest);
      GoodFirst(d, max, f, next, rest[1..], behind, resyncs);
      GoodWaits(d, max, f, b, rest, behind, resyncs);
    }
  }

  lemma GoodDone(d: Delimiters, max: nat, f: Sent, b: bytes, rest: bytes, behind: bytes, resyncs: nat)
    requires d.Valid() && f.garbage == [] && f.Delimited(d) && Qualifies(d, max, f)
    requires b + rest == f.Frame(d) + behind && |b| == |f.Frame(d)|
    ensures HeadTailRun(d, max, b, Bytewise(rest), resyncs)
         == HeadTailRun(d, max, [], Bytewise(behind), 0).Before(f.payload)
  {
    assert f.Wire(d) == f.Frame(d);
    HeadArrived(d, f, b, rest, behind);
    assert b[0..] == b;
    TailArrived(d, f, b, rest, behind);
    assert b == (b + rest)[..|b|] && rest == (b + rest)[|b|..];
    assert b == f.Frame(d) && rest == behind;
    Delivers(d, max, b, Bytewise(rest), resyncs);
  }

  lemma Delivers(d: Delimiters, max: nat, b: bytes, chunks: seq<bytes>, resyncs: nat)
    requires d.Valid() && Find(b, d.head, 0) == 0 && b[0..] == b
    requires 0 <= Find(b, d.tail, |d.head|) <= |d.head| + max
    ensures (var t := Find(b, d.tail, |d.head|);
             HeadTailRun(d, max, b, chunks, resyncs)
             == HeadTailRun(d, max, b[t + |d.tail|..], chunks, 0).Before(b[|d.head|..t]))
  {
  }

  lemma GoodWaits(d: Delimiters, max: nat, f: Sent, b: bytes, rest: bytes, behind: bytes, resyncs: nat)
    requires d.Valid() && f.garbage == [] && f.Delimited(d) && Qualifies(d, max, f)
    requires b + rest == f.Frame(d) + behind && |b| < |f.Frame(d)|
    ensures HeadTailRun(d, max, b, Bytewise(rest), resyncs)
         == HeadTailRun(d, max, b + [rest[0]], Bytewise(rest[1..]), resyncs)
  {
    BytewiseHead(rest);
    assert f.Wire(d) == f.Frame(d);
    if |b| < |d.head| {
      NoHeadYet(d, f, b, rest, behind);
      WaitsForHead(d, max, b, Bytewise(rest), resyncs);
    } else {
      StartsWithHead(d, f, b, rest, behind);
      assert b[0..] == b;
      NoTailYet(d, f, b, rest, behind);
      NoInnerHead(d, f, b, rest, behind);
      WaitsForTail(d, max, b, Bytewise(rest), resyncs);
    }
  }

  /** Garbage that fits is dropped as soon as the head is there. */
  lemma {:induction false} PastGarbage(d: Delimiters, max: nat, f: Sent, b: bytes, rest: bytes, behind: bytes, resyncs: nat)
    requires d.Valid() && f.Delimited(d) && |f.garbage| + |d.head| - 1 <= max
    requires b + rest == f.Wire(d) + behind && |b| <= |f.garbage| + |d.head|
    ensures HeadTailRun(d, max, b, Bytewise(rest), resyncs)
         == HeadTailRun(d, max, d.head, Bytewise(f.payload + d.tail + behind), resyncs)
    decreases |rest|
  {
    if |b| < |f.garbage| + |d.head| {
      NoHeadYet(d, f, b, rest, behind);
      OneByte(b, rest, f.Wire(d) + behind);
      PastGarbage(d, max, f, b + [rest[0]], rest[1..], behind, resyncs);
      WaitsForHead(d, max, b, Bytewise(rest), resyncs);
    } else {
      HeadArrived(d, f, b, rest, behind);
      DropGarbage(d, max, b, Bytewise(rest), resyncs);
      BehindGarbage(d, f, b, rest, behind);
    }
  }

  lemma BehindGarbage(d: Delimiters, f: Sent, b: bytes, rest: bytes, behind: bytes)
    requires b + rest == f.Wire(d) + behind && |b| == |f.garbage| + |d.head|
    ensures b[|f.garbage|..] == d.head && rest == f.payload + d.tail + behind
  {
    var s := (f.garbage + d.head) + (f.payload + d.tail + behind);
    assert b + rest == s;
    assert b == s[..|b|] && rest == s[|b|..];
  }

  /** Garbage that does not fit ends the connection. */
  lemma {:induction false} LongGarbage(d: Delimiters, max: nat, f: Sent, b: bytes, rest: bytes, behind: bytes)
    requires d.Valid() && f.Delimited(d) && |f.garbage| + |d.head| - 1 > max
    requires b + rest == f.Wire(d) + behind && |b| < |f.garbage| + |d.head|
    ensures HeadTailRun(d, max, b, Bytewise(rest), 0).frames == []
    decreases |rest|
  {
    NoHeadYet(d, f, b, rest, behind);
    if |b| <= max {
      OneByte(b, rest, f.Wire(d) + behind);
      LongGarbage(d, max, f, b + [rest[0]], rest[1..], behind);
      WaitsForHead(d, max, b, Bytewise(rest), 0);
    }
  }

  /** One byte at a time, a qualifying frame comes out of its garbage too. */
  lemma GoodFrame(d: Delimiters, max: nat, f: Sent, behind: bytes)
    requires d.Valid() && f.Delimited(d) && Qualifies(d, max, f)
    ensures HeadTailRun(d, max, [], Bytewise(f.Wire(d) + behind), 0)
         == HeadTailRun(d, max, [], Bytewise(behind), 0).Before(f.payload)
  {
    assert [] + (f.Wire(d) + behind) == f.Wire(d) + behind;
    PastGarbage(d, max, f, [], f.Wire(d) + behind, behind, 0);
    GoodBare(d, max, f, Sent([], f.payload), behind);
  }

  lemma GoodBare(d: Delimiters, max: nat, f: Sent, g: Sent, behind: bytes)
    requires d.Valid() && f.Delimited(d) && Qualifies(d, max, f) && g == Sent([], f.payload)
    ensures HeadTailRun(d, max, d.head, Bytewise(f.payload + d.tail + behind), 0)
         == HeadTailRun(d, max, [], Bytewise(behind), 0).Before(f.payload)
  {
    assert g.Frame(d) == f.Frame(d) && d.head + (f.payload + d.tail + behind) == g.Frame(d) + behind;
    assert g.Delimited(d) && Qualifies(d, max, g);
    GoodFirst(d, max, g, d.head, f.payload + d.tail + behind, behind, 0);
  }

  /** Some garbage in front of a frame is too long. */
  lemma {:induction false} OneLongGarbage(d: Delimiters, max: nat, frames: seq<Sent>)
    requires d.Valid() && (forall f :: f in frames ==> f.Delimited(d) && Clean(d, max, f.payload))
    requires exists f :: f in frames && !Qualifies(d, max, f)
    ensures HeadTailRun(d, max, [], Bytewise(Wire(d, frames)), 0).frames != Payloads(frames)
  {
    var f, behind := frames[0], Wire(d, frames[1..]);
    assert f in frames && Sent([], f.payload).Frame(d) == f.Frame(d);
    if Qualifies(d, max, f) {
      OneLongGarbage(d, max, frames[1..]);
      GoodFrame(d, max, f, behind);
      var run := HeadTailRun(d, max, [], Bytewise(behind), 0).frames;
      assert ([f.payload] + run)[1..] == run && Payloads(frames)[1..] == Payloads(frames[1..]);
    } else {
      assert [] + Wire(d, frames) == f.Wire(d) + behind;
      LongGarbage(d, max, f, [], Wire(d, frames), behind);
    }
  }

  /** One byte at a time, a stream with a frame that does not qualify is not delivered whole. */
  lemma OneBadFrame(d: Delimiters, max: nat, frames: seq<Sent>)
    requires d.Valid() && (forall f :: f in frames ==> f.Delimited(d))
    requires exists f :: f in frames && !Qualifies(d, max, f)
    ensures HeadTailRun(d, max, [], Bytewise(Wire(d, frames)), 0).frames != Payloads(frames)
  {
    if f :| f in frames && !Clean(d, max, f.payload) {
      assert Find([], d.head, 0) < 0;
      BytewiseClean(d, max, [], Wire(d, frames), 0);
      var i :| 0 <= i < |frames| && frames[i] == f;
      assert Payloads(frames)[i] == f.payload;
    } else {
      OneLongGarbage(d, max, frames);
    }
  }

  ghost predicate AlwaysAllRoundTrip(d: Delimiters, max: nat, frames: seq<Sent>)
    requires d.Valid()
  {
    forall chunks :: ValidChunks(chunks) && Flatten(chunks) == Wire(d, frames) ==>
      HeadTailRun(d, max, [], chunks, 0).frames == Payloads(frames)
  }

  /**
   Exactly when every chunking of a stream, garbage included, delivers all its payloads: in each
   frame no second head is complete before its last byte, and both size checks pass with one byte missing.
   */
  lemma AllRoundTripIff(d: Delimiters, max: nat, frames: seq<Sent>)
    requires d.Valid() && forall f :: f in frames ==> f.Delimited(d)
    ensures AlwaysAllRoundTrip(d, max, frames) <==> forall f :: f in frames ==> Qualifies(d, max, f)
  {
    if forall f :: f in frames ==> Qualifies(d, max, f) {
      forall chunks | ValidChunks(chunks) && Flatten(chunks) == Wire(d, frames)
        ensures HeadTailRun(d, max, [], chunks, 0).frames == Payloads(frames)
      {
        assert [] + Flatten(chunks) == Wire(d, frames);
        HeadTailRoundTrip(d, max, frames, [], chunks, 0);
      }
    } else {
      OneBadFrame(d, max, frames);
      var chunks := Bytewise(Wire(d, frames));
      assert ValidChunks(chunks) && Flatten(chunks) == Wire(d, frames);
    }
  }

  ghost predicate AlwaysRoundTrips(d: Delimiters, max: nat, f: Sent)
    requires d.Valid()
  {
    forall chunks :: ValidChunks(chunks) && Flatten(chunks) == f.Wire(d) ==>
      HeadTailRun(d, max, [], chunks, 0).frames == [f.payload]
  }

  /** The same for one frame. */
  lemma HeadTailRoundTripIff(d: Delimiters, max: nat, f: Sent)
    requires d.Valid() && f.Delimited(d)
    ensures AlwaysRoundTrips(d, max, f) <==> f.HeadOnlyInFront(d) && f.Fits(d, max)
  {
    OneFrame(d, f);
    AllRoundTripIff(d, max, [f]);
    assert f in [f] && forall g :: g in [f] ==> g == f;
  }

  lemma OneFrame(d: Delimiters, f: Sent)
    ensures [f][1..] == [] && Wire(d, [f]) == f.Wire(d) && Payloads([f]) == [f.payload]
  {
    assert [f][1..] == [];
    assert Wire(d, []) == [] && Payloads([]) == [];
  }

  // ------------------------------------------------------------------ the count of resyncs

  /** Nothing but heads. */
  function Heads(d: Delimiters, k: nat): bytes {
    if k == 0 then [] else d.head + Heads(d, k - 1)
  }

  lemma HeadAgain(d: Delimiters, k: nat)
    requires d.Valid() && k >= 1
    ensures Find(Heads(d, k), d.head, 0) == 0 && Heads(d, k)[0..] == Heads(d, k)
    ensures k >= 2 ==> Find(Heads(d, k), d.head, |d.head|) == |d.head| && Heads(d, k)[|d.head|..] == Heads(d, k - 1)
    ensures k == 1 ==> Find(Heads(d, k), d.head, |d.head|) < 0
  {
    var b := Heads(d, k);
    assert b[..|d.head|] == d.head;
    FindIs(b, d.head, 0, 0);
    if k >= 2 {
      assert b == d.head + (d.head + Heads(d, k - 2));
      assert b[|d.head|..2 * |d.head|] == d.head;
      FindIs(b, d.head, |d.head|, |d.head|);
    }
  }

  ghost predicate NoTailInHeads(d: Delimiters, k: nat) {
    forall j: nat :: j <= k ==> Find(Heads(d, j), d.tail, |d.head|) < 0
  }

  /** Each further head resynchronises once; the connection survives 256 of them in a row and no more. */
  lemma {:induction false} ResyncLimit(d: Delimiters, max: nat, k: nat, resyncs: nat)
    requires d.Valid() && k >= 1 && |d.head| <= max && NoTailInHeads(d, k) && resyncs <= 256
    ensures HeadTailRun(d, max, Heads(d, k), [], resyncs)
         == if resyncs + k - 1 <= 256 then Session([], Closed, k - 1) else Session([], TooManyResyncs, 257 - resyncs)
    decreases k
  {
    HeadAgain(d, k);
    if k >= 2 && resyncs + 1 <= 256 {
      ResyncLimit(d, max, k - 1, resyncs + 1);
    }
  }

  /** A delivered frame starts the count of resyncs again. */
  lemma FrameResetsResyncs(d: Delimiters, max: nat, f: Sent, behind: bytes, chunks: seq<bytes>, resyncs: nat)
    requires d.Valid() && f.Delimited(d) && |f.payload| <= max
    ensures HeadTailRun(d, max, f.Frame(d) + behind, chunks, resyncs)
         == HeadTailRun(d, max, behind, chunks, 0).Before(f.payload)
  {
    var b := f.Frame(d) + behind;
    assert b + [] == f.Frame(d) + behind && b[0..] == b;
    StartsWithHead(d, f, b, [], behind);
    TailArrived(d, f, b, [], behind);
    assert b[|f.Frame(d)|..] + [] == b[|f.Frame(d)|..] == behind;
    Delivers(d, max, b, chunks, resyncs);
  }

  // ------------------------------------------------------------------ a lost tail

  /** A frame whose tail was lost: no tail before the next frame's head, and no head but its own. */
  ghost predicate LostTail(d: Delimiters, lost: bytes) {
    && (forall j :: !OccursAt(lost + d.head, d.tail, j))
    && (forall j :: |d.head| <= j < |d.head| + |lost| ==> !OccursAt(d.head + lost + d.head, d.head, j))
  }

  /** What a lost tail and the next frame must be like for the exact theorem. */
  ghost predicate Resumable(d: Delimiters, max: nat, lost: bytes, f: Sent) {
    && LostTail(d, lost) && 2 * |d.head| + |lost| - 1 <= max
    && f.garbage == [] && f.Delimited(d) && f.HeadOnlyInFront(d) && f.Fits(d, max)
  }

  /** The frame that both make when no read ends between them. */
  function Merged(d: Delimiters, lost: bytes, f: Sent): Sent {
    Sent([], lost + d.head + f.payload)
  }

  function LostWire(d: Delimiters, lost: bytes, f: Sent): bytes {
    d.head + lost + f.Frame(d)
  }

  /** Some read ends when at least `lo` and fewer than `hi` bytes have been received. */
  ghost predicate ReadEndsIn(received: nat, chunks: seq<bytes>, lo: nat, hi: nat) {
    exists n :: 0 <= n <= |chunks| && lo <= received + |Flatten(chunks[..n])| < hi
  }

  lemma ReadEndsNext(received: nat, chunks: seq<bytes>, lo: nat, hi: nat)
    requires chunks != [] && received < lo
    ensures ReadEndsIn(received, chunks, lo, hi) <==> ReadEndsIn(received + |chunks[0]|, chunks[1..], lo, hi)
  {
    if n :| 0 <= n <= |chunks| && lo <= received + |Flatten(chunks[..n])| < hi {
      assert n > 0 && chunks[..n][1..] == chunks[1..][..n - 1];
    }
    if n :| 0 <= n <= |chunks[1..]| && lo <= received + |chunks[0]| + |Flatten(chunks[1..][..n])| < hi {
      assert chunks[..n + 1][1..] == chunks[1..][..n];
    }
  }

  /** A read that ended behind the second head, with no tail in sight, brings the next frame out. */
  lemma Recovers(d: Delimiters, max: nat, lost: bytes, f: Sent, b: bytes, chunks: seq<bytes>)
    requires d.Valid() && Resumable(d, max, lost, f) && ValidChunks(chunks)
    requires b + Flatten(chunks) == LostWire(d, lost, f)
    requires 2 * |d.head| + |lost| <= |b| && Find(b, d.tail, |d.head|) < 0
    ensures HeadTailRun(d, max, b, chunks, 0) == Session([f.payload], Closed, 1)
  {
    SecondHeadInside(d, lost, b, Flatten(chunks), f);
    BehindSecondHead(d, lost, b, f);
    OneFrame(d, f);
    assert f.Wire(d) == f.Frame(d);
    HeadTailRoundTrip(d, max, [f], b[|d.head| + |lost|..], chunks, 1);
  }

  lemma SecondHeadInside(d: Delimiters, lost: bytes, b: bytes, more: bytes, f: Sent)
    requires b + more == LostWire(d, lost, f) && |b| >= 2 * |d.head| + |lost|
    ensures b[..2 * |d.head| + |lost|] == d.head + lost + d.head
    ensures b[|d.head| + |lost|..] + more == f.Frame(d)
  {
    var n := 2 * |d.head| + |lost|;
    var s := LostWire(d, lost, f);
    assert s == (d.head + lost + d.head) + (f.payload + d.tail);
    assert b[..n] == s[..n];
    assert b[|d.head| + |lost|..] + more == s[|d.head| + |lost|..];
    assert s == (d.head + lost) + f.Frame(d);
  }

  /** The second head is found first, and nothing in front of it is. */
  lemma BehindSecondHead(d: Delimiters, lost: bytes, b: bytes, f: Sent)
    requires d.Valid() && LostTail(d, lost) && |b| >= 2 * |d.head| + |lost|
    requires b[..2 * |d.head| + |lost|] == d.head + lost + d.head
    ensures Find(b, d.head, 0) == 0 && b[0..] == b
    ensures Find(b, d.head, |d.head|) == |d.head| + |lost|
  {
    var front := d.head + lost + d.head;
    var behind := b[|front|..];
    assert b == front + behind;
    OccursInPrefix(front, behind, d.head, 0);
    FindIs(b, d.head, 0, 0);
    assert OccursAt(front, d.head, |d.head| + |lost|);
    OccursInPrefix(front, behind, d.head, |d.head| + |lost|);
    forall j | |d.head| <= j < |d.head| + |lost| ensures !OccursAt(b, d.head, j) {
      OccursInPrefix(front, behind, d.head, j);
    }
    FindIs(b, d.head, |d.head|, |d.head| + |lost|);
  }

  /** With all bytes there before the second head is looked for, the tail closes both at once. */
  lemma Merges(d: Delimiters, max: nat, lost: bytes, f: Sent)
    requires d.Valid() && f.garbage == [] && Merged(d, lost, f).Delimited(d)
    ensures HeadTailRun(d, max, LostWire(d, lost, f), [], 0)
         == if |Merged(d, lost, f).payload| <= max then Session([Merged(d, lost, f).payload], Closed, 0)
            else Session([], TooLong, 0)
  {
    var s, merged := LostWire(d, lost, f), Merged(d, lost, f);
    assert s == merged.Frame(d) == merged.Wire(d);
    assert s + [] == merged.Wire(d) + [] && s + [] == merged.Frame(d) + [];
    HeadArrived(d, merged, s, [], []);
    assert s[0..] == s;
    TailArrived(d, merged, s, [], []);
    MergedRun(d, max, s, merged);
  }

  lemma MergedRun(d: Delimiters, max: nat, s: bytes, merged: Sent)
    requires d.Valid() && Find(s, d.head, 0) == 0 && s[0..] == s
    requires var t := Find(s, d.tail, |d.head|);
             t == |d.head| + |merged.payload| && s[|d.head|..t] == merged.payload && s[t + |d.tail|..] == []
    ensures HeadTailRun(d, max, s, [], 0)
         == if |merged.payload| <= max then Session([merged.payload], Closed, 0) else Session([], TooLong, 0)
  {
    assert Find([], d.head, 0) < 0;
    assert HeadTailRun(d, max, [], [], 0) == Session([], Closed, 0);
  }

  /** What comes out of a lost tail and a frame, from a buffer without the second head. */
  lemma {:induction false} LostTailFrom(d: Delimiters, max: nat, lost: bytes, f: Sent, b: bytes, chunks: seq<bytes>)
    requires d.Valid() && Resumable(d, max, lost, f) && Merged(d, lost, f).Delimited(d) && ValidChunks(chunks)
    requires b + Flatten(chunks) == LostWire(d, lost, f) && |b| < 2 * |d.head| + |lost|
    ensures HeadTailRun(d, max, b, chunks, 0)
         == if ReadEndsIn(|b|, chunks, 2 * |d.head| + |lost|, |LostWire(d, lost, f)|)
            then Session([f.payload], Closed, 1)
            else HeadTailRun(d, max, LostWire(d, lost, f), [], 0)
    decreases |chunks|
  {
    var wire := LostWire(d, lost, f);
    MoreToCome(b, chunks, wire);
    var next, rest := b + chunks[0], chunks[1..];
    NothingYet(d, lost, b, Flatten(chunks), f);
    LostTailWaits(d, max, b, chunks);
    ReadEndsNext(|b|, chunks, 2 * |d.head| + |lost|, |wire|);
    if |next| < 2 * |d.head| + |lost| {
      LostTailFrom(d, max, lost, f, next, rest);
    } else {
      LostTailDecided(d, max, lost, f, next, rest);
    }
  }

  lemma LostTailWaits(d: Delimiters, max: nat, b: bytes, chunks: seq<bytes>)
    requires d.Valid() && b[0..] == b && |b| <= max && chunks != []
    requires Find(b, d.head, 0) < 0
             || (Find(b, d.head, 0) == 0 && Find(b, d.tail, |d.head|) < 0 && Find(b, d.head, |d.head|) < 0)
    ensures HeadTailRun(d, max, b, chunks, 0) == HeadTailRun(d, max, b + chunks[0], chunks[1..], 0)
  {
  }

  /** Once the second head is there, it depends on whether all the rest is too. */
  lemma LostTailDecided(d: Delimiters, max: nat, lost: bytes, f: Sent, b: bytes, chunks: seq<bytes>)
    requires d.Valid() && Resumable(d, max, lost, f) && Merged(d, lost, f).Delimited(d) && ValidChunks(chunks)
    requires b + Flatten(chunks) == LostWire(d, lost, f) && |b| >= 2 * |d.head| + |lost|
    ensures HeadTailRun(d, max, b, chunks, 0)
         == if ReadEndsIn(|b|, chunks, 2 * |d.head| + |lost|, |LostWire(d, lost, f)|)
            then Session([f.payload], Closed, 1)
            else HeadTailRun(d, max, LostWire(d, lost, f), [], 0)
  {
    var wire := LostWire(d, lost, f);
    if |b| < |wire| {
      assert Merged(d, lost, f).Frame(d) == wire && wire + [] == wire;
      NoTailYet(d, Merged(d, lost, f), b, Flatten(chunks), []);
      Recovers(d, max, lost, f, b, chunks);
      assert chunks[..0] == [] && Flatten(chunks[..0]) == [];
      assert ReadEndsIn(|b|, chunks, 2 * |d.head| + |lost|, |wire|);
    } else {
      assert b == wire && Flatten(chunks) == [] && chunks == [];
    }
  }

  /**
   Behind a frame whose tail was lost the next frame is delivered if and only if some read ends
   behind its head and before its last byte; otherwise both come out as one, or not at all.
   */
  lemma LostTailRecoveryIff(d: Delimiters, max: nat, lost: bytes, f: Sent, chunks: seq<bytes>)
    requires d.Valid() && Resumable(d, max, lost, f) && Merged(d, lost, f).Delimited(d)
    requires ValidChunks(chunks) && Flatten(chunks) == LostWire(d, lost, f)
    ensures HeadTailRun(d, max, [], chunks, 0).frames == [f.payload]
       <==> ReadEndsIn(0, chunks, 2 * |d.head| + |lost|, |LostWire(d, lost, f)|)
    ensures var run := HeadTailRun(d, max, [], chunks, 0);
            || run.frames == [f.payload]
            || run == (if |lost| + |d.head| + |f.payload| <= max
                       then Session([Merged(d, lost, f).payload], Closed, 0) else Session([], TooLong, 0))
  {
    assert [] + Flatten(chunks) == LostWire(d, lost, f);
    LostTailFrom(d, max, lost, f, [], chunks);
    Merges(d, max, lost, f);
    assert |Merged(d, lost, f).payload| != |f.payload|;
  }

  /** Received byte by byte, the reader resynchronises on the next frame and delivers it. */
  lemma LostTailRecovers(d: Delimiters, max: nat, lost: bytes, f: Sent)
    requires d.Valid() && Resumable(d, max, lost, f)
    ensures HeadTailRun(d, max, [], Bytewise(LostWire(d, lost, f)), 0) == Session([f.payload], Closed, 1)
  {
    assert [] + LostWire(d, lost, f) == LostWire(d, lost, f);
    RecoverBytewise(d, max, lost, f, [], LostWire(d, lost, f));
  }

  lemma {:induction false} RecoverBytewise(d: Delimiters, max: nat, lost: bytes, f: Sent, b: bytes, rest: bytes)
    requires d.Valid() && Resumable(d, max, lost, f)
    requires b + rest == LostWire(d, lost, f) && |b| <= 2 * |d.head| + |lost|
    ensures HeadTailRun(d, max, b, Bytewise(rest), 0) == Session([f.payload], Closed, 1)
    decreases |rest|
  {
    if |b| < 2 * |d.head| + |lost| {
      var next := b + [rest[0]];
      assert next + rest[1..] == b + rest;
      BytewiseHead(rest);
      NothingYet(d, lost, b, rest, f);
      RecoverBytewise(d, max, lost, f, next, rest[1..]);
    } else {
      SecondHead(d, lost, b, rest, f);
      assert b + [] == b;
      NoTailIn(d, lost, b, []);
      Recovers(d, max, lost, f, b, Bytewise(rest));
    }
  }

  /** Received in one read, the same bytes come out as one frame with the second head inside it. */
  lemma LostTailMerges(d: Delimiters, max: nat, lost: bytes, f: Sent)
    requires d.Valid() && f.garbage == [] && Merged(d, lost, f).Delimited(d)
    requires |lost| + |d.head| + |f.payload| <= max
    ensures HeadTailRun(d, max, [], [LostWire(d, lost, f)], 0)
         == Session([lost + d.head + f.payload], Closed, 0)
  {
    var s := LostWire(d, lost, f);
    Merges(d, max, lost, f);
    assert Find([], d.head, 0) < 0;
    assert [s][1..] == [] && [] + s == s;
  }

  /** The buffer up to the second head is the lost frame, and what follows completes the next. */
  lemma SecondHead(d: Delimiters, lost: bytes, b: bytes, rest: bytes, f: Sent)
    requires b + rest == d.head + lost + f.Frame(d) && |b| == 2 * |d.head| + |lost|
    ensures b == d.head + lost + d.head && d.head + rest == f.Frame(d)
  {
    var s := d.head + lost + f.Frame(d);
    assert s == (d.head + lost + d.head) + (f.payload + d.tail);
    assert b == s[..|b|] && rest == s[|b|..];
  }

  /** Until the second head is complete the reader finds nothing to cut. */
  lemma NothingYet(d: Delimiters, lost: bytes, b: bytes, rest: bytes, f: Sent)
    requires d.Valid() && LostTail(d, lost)
    requires b + rest == d.head + lost + f.Frame(d) && |b| < 2 * |d.head| + |lost|
    ensures |b| < |d.head| ==> Find(b, d.head, 0) < 0
    ensures |b| >= |d.head| ==>
              Find(b, d.head, 0) == 0 && Find(b[0..], d.tail, |d.head|) < 0 && Find(b[0..], d.head, |d.head|) < 0
    ensures b[0..] == b
  {
    var twoHeads := d.head + lost + d.head;
    var left := twoHeads[|b|..];
    assert b + left == twoHeads by {
      var s := d.head + lost + f.Frame(d);
      assert s == twoHeads + (f.payload + d.tail);
      assert b == s[..|b|] == twoHeads[..|b|];
    }
    if |b| >= |d.head| {
      assert b[..|d.head|] == (b + left)[..|d.head|] == d.head;
      FindIs(b, d.head, 0, 0);
      NoTailIn(d, lost, b, left);
      var h := Find(b, d.head, |d.head|);
      if h >= 0 {
        OccursInPrefix(b, left, d.head, h);
      }
    }
  }

  lemma NoTailIn(d: Delimiters, lost: bytes, b: bytes, left: bytes)
    requires d.Valid() && LostTail(d, lost) && b + left == d.head + lost + d.head
    ensures Find(b, d.tail, |d.head|) < 0
  {
    var t := Find(b, d.tail, |d.head|);
    if t >= 0 {
      OccursInPrefix(b, left, d.tail, t);
      assert (b + left)[|d.head|..] == lost + d.head;
      OccursInSuffix(b + left, |d.head|, d.tail, t - |d.head|);
    }
  }
}
