/**
 How far the chunking decides what `line` framing delivers: the two extreme chunkings of a
 stream, and exactly when they, and so all, agree.
 */
module LineChunking {
  import opened Bytes
  import opened LineFraming

  /** The separator bytes that arrive before the last read can complete the rest. */
  function Early(separator: bytes): nat {
    if |separator| > RECV_CHUNK then |separator| - RECV_CHUNK else 0
  }

  /** The longest piece some chunking delivers. */
  function Ceiling(separator: bytes, max: nat): int {
    max - Early(separator)
  }

  // ------------------------------------------------------------------ the upper reading

  lemma OneMore(piece: bytes, pieces: seq<bytes>, frames: seq<bytes>, limit: int)
    requires frames <= Deliverable(pieces, limit) && |piece| <= limit
    ensures (if piece == [] then frames else [piece] + frames) <= Deliverable([piece] + pieces, limit)
  {
    DeliverableHead(pieces, piece, limit);
  }

  /** Cutting one piece off the buffer. */
  lemma CutsOff(separator: bytes, max: nat, buffer: bytes, chunks: seq<bytes>, p: nat, rest: bytes)
    requires separator != [] && Find(buffer, separator, 0) == p <= max && rest == buffer[p + |separator|..]
    ensures LineRun(separator, max, buffer, chunks).frames
         == if p == 0 then LineRun(separator, max, rest, chunks).frames
            else [buffer[..p]] + LineRun(separator, max, rest, chunks).frames
  {
  }

  lemma CutWithin(separator: bytes, max: nat, buffer: bytes, p: nat)
    requires p + |separator| <= |buffer| <= max + RECV_CHUNK && p <= max
    ensures p <= Ceiling(separator, max) && |buffer[p + |separator|..]| <= max + RECV_CHUNK
  {
  }

  /** What comes out is within the upper reading of the stream. */
  ghost predicate Below(separator: bytes, max: nat, frames: seq<bytes>, s: bytes)
    requires separator != []
  {
    frames <= Deliverable(Pieces(separator, s), Ceiling(separator, max))
  }

  lemma BelowCut(separator: bytes, max: nat, buffer: bytes, more: bytes, p: nat, frames: seq<bytes>)
    requires separator != [] && p == Find(buffer, separator, 0) && p <= Ceiling(separator, max)
    requires Below(separator, max, frames, buffer[p + |separator|..] + more)
    ensures Below(separator, max, if p == 0 then frames else [buffer[..p]] + frames, buffer + more)
  {
    CutStep(separator, buffer, more);
    OneMore(buffer[..p], Pieces(separator, buffer[p + |separator|..] + more), frames, Ceiling(separator, max));
  }

  /** No read brings more than one chunk, so no run delivers more than the upper reading. */
  lemma {:induction false} NoneAboveCeiling(separator: bytes, max: nat, buffer: bytes, chunks: seq<bytes>)
    requires separator != [] && ValidChunks(chunks) && |buffer| <= max + RECV_CHUNK
    ensures Below(separator, max, LineRun(separator, max, buffer, chunks).frames, buffer + Flatten(chunks))
    decreases |chunks|, |buffer|
  {
    var p := Find(buffer, separator, 0);
    if 0 <= p <= max {
      var rest := buffer[p + |separator|..];
      CutWithin(separator, max, buffer, p);
      NoneAboveCeiling(separator, max, rest, chunks);
      CutsOff(separator, max, buffer, chunks, p, rest);
      BelowCut(separator, max, buffer, Flatten(chunks), p, LineRun(separator, max, rest, chunks).frames);
    } else if p < 0 && |buffer| <= max && chunks != [] {
      assert buffer + Flatten(chunks) == (buffer + chunks[0]) + Flatten(chunks[1..]);
      NoneAboveCeiling(separator, max, buffer + chunks[0], chunks[1..]);
    }
  }

  // ------------------------------------------------------------------ a chunking that attains it

  /** A piece byte by byte, then as much of its separator as possible in one read. */
  function PieceSent(separator: bytes, piece: bytes, rest: seq<bytes>): seq<bytes> {
    Bytewise(piece + separator[..Early(separator)]) + ([separator[Early(separator)..]] + rest)
  }

  function Generous(separator: bytes, s: bytes): (chunks: seq<bytes>)
    requires separator != []
    decreases |s|
  {
    var p := Find(s, separator, 0);
    if p < 0 then Bytewise(s)
    else PieceSent(separator, s[..p], Generous(separator, s[p + |separator|..]))
  }

  lemma {:induction false} GenerousIsChunking(separator: bytes, s: bytes)
    requires separator != []
    ensures ValidChunks(Generous(separator, s)) && Flatten(Generous(separator, s)) == s
    decreases |s|
  {
    var p := Find(s, separator, 0);
    if p >= 0 {
      var tail := s[p + |separator|..];
      GenerousIsChunking(separator, tail);
      Assembled(separator, s[..p], tail, Generous(separator, tail));
      SplitAt(s, separator, p);
    }
  }

  lemma Assembled(separator: bytes, piece: bytes, tail: bytes, rest: seq<bytes>)
    requires separator != [] && ValidChunks(rest) && Flatten(rest) == tail
    ensures ValidChunks(PieceSent(separator, piece, rest))
    ensures Flatten(PieceSent(separator, piece, rest)) == piece + separator + tail
  {
    var early, last := separator[..Early(separator)], separator[Early(separator)..];
    assert separator == early + last;
    ThenOne(piece + early, last, rest);
    FourParts(piece, early, last, tail);
  }

  lemma ThenOne(front: bytes, last: bytes, rest: seq<bytes>)
    requires ValidChunks(rest) && 1 <= |last| <= RECV_CHUNK
    ensures var chunks := Bytewise(front) + ([last] + rest);
            ValidChunks(chunks) && Flatten(chunks) == front + (last + Flatten(rest))
  {
    FlattenConcat(Bytewise(front), [last] + rest);
    assert ([last] + rest)[1..] == rest;
  }

  lemma FourParts(a: bytes, b: bytes, c: bytes, d: bytes)
    ensures (a + b) + (c + d) == a + (b + c) + d
  {
  }

  /** Bytes that complete no separator only fill the buffer, unless it grows too long. */
  lemma {:induction false} Fills(separator: bytes, max: nat, b: bytes, rest: bytes, more: seq<bytes>)
    requires separator != [] && Find(b + rest, separator, 0) < 0
    ensures |b + rest| <= max ==>
              LineRun(separator, max, b, Bytewise(rest) + more) == LineRun(separator, max, b + rest, more)
    ensures |b + rest| > max ==> LineRun(separator, max, b, Bytewise(rest) + more).frames == []
    decreases |rest|
  {
    NoneInFront(separator, b, rest);
    if rest == [] {
      assert b + rest == b && Bytewise(rest) + more == more;
    } else if |b| <= max {
      BytewiseHead(rest);
      var next := b + [rest[0]];
      assert next + rest[1..] == b + rest;
      assert (Bytewise(rest) + more)[1..] == Bytewise(rest[1..]) + more;
      Fills(separator, max, next, rest[1..], more);
    }
  }

  lemma NoneInFront(separator: bytes, b: bytes, rest: bytes)
    requires separator != [] && Find(b + rest, separator, 0) < 0
    ensures Find(b, separator, 0) < 0
  {
    if Find(b, separator, 0) >= 0 {
      FindStable(b, rest, separator, 0);
    }
  }

  /** One piece, sent that way: it comes out if it is within the ceiling, or else nothing more does. */
  lemma {:induction false} GenerousPiece(separator: bytes, max: nat, piece: bytes, rest: seq<bytes>)
    requires separator != [] && EndsFirst(piece, separator)
    ensures var frames := LineRun(separator, max, [], PieceSent(separator, piece, rest)).frames;
            if |piece| > Ceiling(separator, max) then frames == []
            else if piece == [] then frames == LineRun(separator, max, [], rest).frames
            else frames == [piece] + LineRun(separator, max, [], rest).frames
  {
    var front, last := piece + separator[..Early(separator)], separator[Early(separator)..];
    FrontIsOpen(separator, piece);
    assert [] + front == front;
    Fills(separator, max, [], front, [last] + rest);
    if |front| <= max {
      assert front + last == piece + separator;
      ReadsOn(separator, max, front, last, rest);
      FindIs(piece + separator, separator, 0, |piece|);
      CutsOne(separator, max, piece, rest);
    }
  }

  lemma FrontIsOpen(separator: bytes, piece: bytes)
    requires separator != [] && EndsFirst(piece, separator)
    ensures Find(piece + separator[..Early(separator)], separator, 0) < 0
  {
    var front, last := piece + separator[..Early(separator)], separator[Early(separator)..];
    assert front + last == piece + separator;
    var p := Find(front, separator, 0);
    if p >= 0 {
      OccursInPrefix(front, last, separator, p);
    }
  }

  lemma ReadsOn(separator: bytes, max: nat, b: bytes, last: bytes, rest: seq<bytes>)
    requires separator != [] && Find(b, separator, 0) < 0 && |b| <= max
    ensures LineRun(separator, max, b, [last] + rest) == LineRun(separator, max, b + last, rest)
  {
    assert ([last] + rest)[1..] == rest;
  }

  lemma CutsOne(separator: bytes, max: nat, piece: bytes, rest: seq<bytes>)
    requires separator != [] && |piece| <= max && Find(piece + separator, separator, 0) == |piece|
    ensures LineRun(separator, max, piece + separator, rest).frames
         == (if piece == [] then [] else [piece]) + LineRun(separator, max, [], rest).frames
  {
    assert (piece + separator)[..|piece|] == piece && (piece + separator)[|piece| + |separator|..] == [];
    CutsOff(separator, max, piece + separator, rest, |piece|, []);
  }

  /** That chunking delivers the upper reading, piece by piece. */
  lemma {:induction false} GenerousDelivers(separator: bytes, max: nat, s: bytes)
    requires separator != []
    ensures LineRun(separator, max, [], Generous(separator, s)).frames
         == Deliverable(Pieces(separator, s), Ceiling(separator, max))
    decreases |s|
  {
    var p := Find(s, separator, 0);
    if p < 0 {
      assert [] + Flatten(Bytewise(s)) == s;
      LineSandwich(separator, max, [], Bytewise(s));
    } else {
      var tail := s[p + |separator|..];
      GenerousDelivers(separator, max, tail);
      PiecesEndFirst(separator, s);
      assert Pieces(separator, s)[0] == s[..p];
      DeliversOn(separator, max, s[..p], Generous(separator, tail), Pieces(separator, tail));
    }
  }

  lemma DeliversOn(separator: bytes, max: nat, piece: bytes, rest: seq<bytes>, pieces: seq<bytes>)
    requires separator != [] && EndsFirst(piece, separator)
    requires LineRun(separator, max, [], rest).frames == Deliverable(pieces, Ceiling(separator, max))
    ensures LineRun(separator, max, [], PieceSent(separator, piece, rest)).frames
         == Deliverable([piece] + pieces, Ceiling(separator, max))
  {
    GenerousPiece(separator, max, piece, rest);
    DeliverableHead(pieces, piece, Ceiling(separator, max));
  }

  // ------------------------------------------------------------------ when the chunking matters

  ghost predicate ChunkingIsIrrelevant(separator: bytes, max: nat, s: bytes)
    requires separator != []
  {
    forall some, other ::
      ValidChunks(some) && Flatten(some) == s && ValidChunks(other) && Flatten(other) == s ==>
        LineRun(separator, max, [], some).frames == LineRun(separator, max, [], other).frames
  }

  /** What any chunking delivers lies between two readings of the stream, and both are attained. */
  lemma BothReadingsAttained(separator: bytes, max: nat, s: bytes)
    requires separator != []
    ensures forall chunks :: ValidChunks(chunks) && Flatten(chunks) == s ==>
              Deliverable(Pieces(separator, s), max - |separator| + 1)
              <= LineRun(separator, max, [], chunks).frames
              <= Deliverable(Pieces(separator, s), Ceiling(separator, max))
    ensures ValidChunks(Bytewise(s)) && Flatten(Bytewise(s)) == s
    ensures ValidChunks(Generous(separator, s)) && Flatten(Generous(separator, s)) == s
    ensures LineRun(separator, max, [], Bytewise(s)).frames == Deliverable(Pieces(separator, s), max - |separator| + 1)
    ensures LineRun(separator, max, [], Generous(separator, s)).frames
         == Deliverable(Pieces(separator, s), Ceiling(separator, max))
  {
    forall chunks | ValidChunks(chunks) && Flatten(chunks) == s
      ensures Deliverable(Pieces(separator, s), max - |separator| + 1)
           <= LineRun(separator, max, [], chunks).frames
           <= Deliverable(Pieces(separator, s), Ceiling(separator, max))
    {
      assert [] + s == s;
      LineSandwich(separator, max, [], chunks);
      NoneAboveCeiling(separator, max, [], chunks);
      assert Below(separator, max, LineRun(separator, max, [], chunks).frames, s);
    }
    BytewiseReading(separator, max, s);
    GenerousIsChunking(separator, s);
    GenerousDelivers(separator, max, s);
  }

  /** All chunkings of a stream deliver the same frames exactly when its two readings agree. */
  lemma LineChunkingIff(separator: bytes, max: nat, s: bytes)
    requires separator != []
    ensures ChunkingIsIrrelevant(separator, max, s)
       <==> (Deliverable(Pieces(separator, s), max - |separator| + 1)
             == Deliverable(Pieces(separator, s), Ceiling(separator, max)))
  {
    BothReadingsAttained(separator, max, s);
  }

  /** Two bytes and CR LF against a limit of two: delivered in one read, refused byte by byte. */
  lemma GapPieceBothWays(separator: bytes, s: bytes)
    requires separator == [13, 10] && s == [65, 66, 13, 10]
    ensures LineRun(separator, 2, [], [s]).frames == [[65, 66]]
    ensures LineRun(separator, 2, [], Bytewise(s)).frames == []
  {
    assert s == [65, 66] + separator && [] + s == s;
    assert s[0..2][0] == 65 && s[1..3][0] == 66;
    FindIs(s, separator, 0, 2);
    ReadsOn(separator, 2, [], s, []);
    assert [s] == [s] + [];
    CutsOne(separator, 2, [65, 66], []);
    assert s[..2] == [65, 66];
    BytewiseReading(separator, 2, s);
    assert |Pieces(separator, s)[0]| == 2;
  }

  /** A separator of up to 4096 bytes leaves pieces the whole limit; each byte more costs one. */
  lemma CeilingInWords(separator: bytes, max: nat)
    ensures Ceiling(separator, max) == if |separator| > 4096 then max - (|separator| - 4096) else max
  {
  }
}
