/**
 `line` framing: the pure run of the read loop over a buffer and the chunks still to come,
 and its relation to cutting the whole stream at its separators.
 */
module LineFraming {
  import opened Bytes

  /** Bytes one `recv` may return. */
  const RECV_CHUNK := 4096

  /** Why a connection's read loop ended: the peer closed, or the protocol was violated. */
  datatype End = Closed | TooLong | TooManyResyncs

  /** All a connection's handler saw: the frames in order, how it ended, resyncs performed. */
  datatype Session = Session(frames: seq<bytes>, end: End, resyncs: nat) {
    function Before(frame: bytes): Session {
      this.(frames := [frame] + frames)
    }
  }

  ghost predicate ValidChunks(chunks: seq<bytes>) {
    forall i :: 0 <= i < |chunks| ==> 1 <= |chunks[i]| <= RECV_CHUNK
  }

  /** The frames cut while `chunks` arrive behind `buffer`. */
  function LineRun(separator: bytes, max: nat, buffer: bytes, chunks: seq<bytes>): Session
    requires separator != []
    decreases |chunks|, |buffer|
  {
    var p := Find(buffer, separator, 0);
    if p >= 0 then
      var frame, rest := buffer[..p], buffer[p + |separator|..];
      if frame == [] then LineRun(separator, max, rest, chunks)
      else if |frame| > max then Session([], TooLong, 0)
      else LineRun(separator, max, rest, chunks).Before(frame)
    else if |buffer| > max then Session([], TooLong, 0)
    else if chunks == [] then Session([], Closed, 0)
    else LineRun(separator, max, buffer + chunks[0], chunks[1..])
  }

  // ------------------------------------------------------------------ the stream, uncut

  /** The complete pieces of a stream, cut at leftmost non-overlapping separators. */
  function Pieces(separator: bytes, s: bytes): seq<bytes>
    requires separator != []
    decreases |s|
  {
    var p := Find(s, separator, 0);
    if p < 0 then [] else [s[..p]] + Pieces(separator, s[p + |separator|..])
  }

  /** What follows the last separator. */
  function Rest(separator: bytes, s: bytes): bytes
    requires separator != []
    decreases |s|
  {
    var p := Find(s, separator, 0);
    if p < 0 then s else Rest(separator, s[p + |separator|..])
  }

  function NonEmpty(pieces: seq<bytes>): seq<bytes> {
    if pieces == [] then []
    else if pieces[0] == [] then NonEmpty(pieces[1..])
    else [pieces[0]] + NonEmpty(pieces[1..])
  }

  /** The non-empty pieces in front of the first piece longer than `limit`. */
  function Deliverable(pieces: seq<bytes>, limit: int): seq<bytes> {
    if pieces == [] || |pieces[0]| > limit then []
    else if pieces[0] == [] then Deliverable(pieces[1..], limit)
    else [pieces[0]] + Deliverable(pieces[1..], limit)
  }

  /** What a stream means when only whole pieces are measured. */
  function LineMeaning(separator: bytes, max: nat, s: bytes): Session
    requires separator != []
  {
    MeaningOf(Pieces(separator, s), |Rest(separator, s)|, max)
  }

  function MeaningOf(pieces: seq<bytes>, left: nat, max: nat): Session {
    Session(Deliverable(pieces, max), if Oversized(pieces, max) || left > max then TooLong else Closed, 0)
  }

  predicate Oversized(pieces: seq<bytes>, limit: int) {
    exists i :: 0 <= i < |pieces| && |pieces[i]| > limit
  }

  function Join(separator: bytes, pieces: seq<bytes>): bytes {
    if pieces == [] then [] else pieces[0] + separator + Join(separator, pieces[1..])
  }

  /** A piece the separator first ends where the piece does. */
  ghost predicate EndsFirst(piece: bytes, delimiter: bytes) {
    forall j :: 0 <= j < |piece| ==> !OccursAt(piece + delimiter, delimiter, j)
  }

  // ------------------------------------------------------------------ cutting

  lemma CutStep(separator: bytes, s: bytes, more: bytes)
    requires separator != [] && Find(s, separator, 0) >= 0
    ensures var p, n := Find(s, separator, 0), |separator|;
            Pieces(separator, s + more) == [s[..p]] + Pieces(separator, s[p + n..] + more)
            && Rest(separator, s + more) == Rest(separator, s[p + n..] + more)
  {
    var p, n := Find(s, separator, 0), |separator|;
    FindStable(s, more, separator, 0);
    assert (s + more)[..p] == s[..p];
    assert (s + more)[p + n..] == s[p + n..] + more;
  }

  /** Cutting is the one way to split a stream: it undoes joining, and joining undoes it. */
  lemma {:induction false} PiecesOfJoin(separator: bytes, pieces: seq<bytes>, rest: bytes)
    requires separator != []
    requires forall i :: 0 <= i < |pieces| ==> EndsFirst(pieces[i], separator)
    requires Find(rest, separator, 0) < 0
    ensures Pieces(separator, Join(separator, pieces) + rest) == pieces
    ensures Rest(separator, Join(separator, pieces) + rest) == rest
  {
    if pieces == [] {
      assert Join(separator, pieces) + rest == rest;
    } else {
      var first := pieces[0] + separator;
      var more := Join(separator, pieces[1..]) + rest;
      assert EndsFirst(pieces[0], separator);
      FindIs(first, separator, 0, |pieces[0]|);
      assert Join(separator, pieces) + rest == first + more;
      CutStep(separator, first, more);
      assert first[..|pieces[0]|] == pieces[0];
      assert first[|pieces[0]| + |separator|..] + more == more;
      PiecesOfJoin(separator, pieces[1..], rest);
    }
  }

  lemma {:induction false} JoinOfPieces(separator: bytes, s: bytes)
    requires separator != []
    ensures Join(separator, Pieces(separator, s)) + Rest(separator, s) == s
    decreases |s|
  {
    var p := Find(s, separator, 0);
    if p >= 0 {
      var tail := s[p + |separator|..];
      JoinOfPieces(separator, tail);
      RejoinCut(separator, s, p, Pieces(separator, tail), Rest(separator, tail));
    } else {
      assert Join(separator, []) + s == s;
    }
  }

  lemma RejoinCut(separator: bytes, s: bytes, p: int, pieces: seq<bytes>, rest: bytes)
    requires separator != [] && p == Find(s, separator, 0) && p >= 0
    requires pieces == Pieces(separator, s[p + |separator|..]) && rest == Rest(separator, s[p + |separator|..])
    requires Join(separator, pieces) + rest == s[p + |separator|..]
    ensures Join(separator, Pieces(separator, s)) + Rest(separator, s) == s
  {
    JoinStep(separator, s, p, pieces, rest);
    assert Pieces(separator, s) == [s[..p]] + pieces;
    assert Rest(separator, s) == rest;
  }

  lemma JoinStep(separator: bytes, s: bytes, p: int, pieces: seq<bytes>, rest: bytes)
    requires OccursAt(s, separator, p)
    requires Join(separator, pieces) + rest == s[p + |separator|..]
    ensures Join(separator, [s[..p]] + pieces) + rest == s
  {
    var piece, joined := s[..p], Join(separator, pieces);
    assert ([piece] + pieces)[1..] == pieces;
    calc {
      Join(separator, [piece] + pieces) + rest;
      (piece + separator + joined) + rest;
      { Regroup(piece, separator, joined, rest); }
      piece + separator + s[p + |separator|..];
      { SplitAt(s, separator, p); }
      s;
    }
  }

  lemma Regroup(a: bytes, b: bytes, c: bytes, d: bytes)
    ensures (a + b + c) + d == a + b + (c + d)
  {
  }

  lemma SplitAt(s: bytes, pattern: bytes, p: int)
    requires OccursAt(s, pattern, p)
    ensures s[..p] + pattern + s[p + |pattern|..] == s
  {
  }

  lemma {:induction false} RestHasNoSeparator(separator: bytes, s: bytes)
    requires separator != []
    ensures Find(Rest(separator, s), separator, 0) < 0
    decreases |s|
  {
    var p := Find(s, separator, 0);
    if p >= 0 {
      RestHasNoSeparator(separator, s[p + |separator|..]);
    }
  }

  lemma {:induction false} PiecesEndFirst(separator: bytes, s: bytes)
    requires separator != []
    ensures forall i :: 0 <= i < |Pieces(separator, s)| ==> EndsFirst(Pieces(separator, s)[i], separator)
    decreases |s|
  {
    var p := Find(s, separator, 0);
    if p >= 0 {
      var tail := s[p + |separator|..];
      PiecesEndFirst(separator, tail);
      forall j | 0 <= j < p ensures !OccursAt(s[..p] + separator, separator, j) {
        assert s == (s[..p] + separator) + tail;
        OccursInPrefix(s[..p] + separator, tail, separator, j);
      }
    }
  }

  // ------------------------------------------------------------------ the run against the cut

  /** A buffer without a separator is shorter than the first piece and its separator. */
  lemma FirstPieceOutgrowsBuffer(separator: bytes, buffer: bytes, more: bytes)
    requires separator != [] && Find(buffer, separator, 0) < 0
    ensures var p := Find(buffer + more, separator, 0); p >= 0 ==> |buffer| < p + |separator|
  {
    var p := Find(buffer + more, separator, 0);
    if p >= 0 && p + |separator| <= |buffer| {
      OccursInPrefix(buffer, more, separator, p);
    }
  }

  lemma DeliverableHead(pieces: seq<bytes>, piece: bytes, limit: int)
    ensures Deliverable([piece] + pieces, limit) ==
            if |piece| > limit then [] else if piece == [] then Deliverable(pieces, limit)
            else [piece] + Deliverable(pieces, limit)
    ensures NonEmpty([piece] + pieces) ==
            if piece == [] then NonEmpty(pieces) else [piece] + NonEmpty(pieces)
    ensures Oversized([piece] + pieces, limit) <==> |piece| > limit || Oversized(pieces, limit)
  {
    var all := [piece] + pieces;
    assert all[1..] == pieces;
    if Oversized(pieces, limit) {
      var i :| 0 <= i < |pieces| && |pieces[i]| > limit;
      assert all[i + 1] == pieces[i];
    }
    if |piece| > limit {
      assert |all[0]| > limit;
    }
  }

  /** How a run may relate to the stream it was fed, whatever the chunking. */
  ghost predicate Sandwiched(separator: bytes, max: nat, run: Session, s: bytes)
    requires separator != []
  {
    Between(Pieces(separator, s), |Rest(separator, s)|, |separator|, max, run)
  }

  /**
   What is delivered lies between the pieces that fit with their separator and those that fit
   without it; `left` is the length of what follows the last separator.
   */
  ghost predicate Between(pieces: seq<bytes>, left: nat, separatorLength: nat, max: nat, run: Session) {
    && Deliverable(pieces, max - separatorLength + 1) <= run.frames <= Deliverable(pieces, max)
    && (run.end == Closed ==> run.frames == NonEmpty(pieces) && left <= max)
    && (separatorLength == 1 ==> run == MeaningOf(pieces, left, max))
  }

  lemma SandwichCut(separator: bytes, max: nat, buffer: bytes, more: bytes, run: Session)
    requires separator != [] && Find(buffer, separator, 0) >= 0
    requires var p := Find(buffer, separator, 0);
             p <= max && Sandwiched(separator, max, run, buffer[p + |separator|..] + more)
    ensures var p := Find(buffer, separator, 0);
            Sandwiched(separator, max, if p == 0 then run else run.Before(buffer[..p]), buffer + more)
  {
    var p := Find(buffer, separator, 0);
    var s := buffer[p + |separator|..] + more;
    CutStep(separator, buffer, more);
    BetweenCons(buffer[..p], Pieces(separator, s), |Rest(separator, s)|, |separator|, max, run);
  }

  lemma BetweenCons(piece: bytes, pieces: seq<bytes>, left: nat, separatorLength: nat, max: nat, run: Session)
    requires separatorLength > 0 && |piece| <= max && Between(pieces, left, separatorLength, max, run)
    ensures Between([piece] + pieces, left, separatorLength, max, if piece == [] then run else run.Before(piece))
  {
    var low, high := Deliverable(pieces, max - separatorLength + 1), Deliverable(pieces, max);
    DeliverableHead(pieces, piece, max - separatorLength + 1);
    DeliverableHead(pieces, piece, max);
    PrefixesBehind(piece, low, run.frames, high);
  }

  lemma PrefixesBehind(piece: bytes, low: seq<bytes>, frames: seq<bytes>, high: seq<bytes>)
    requires low <= frames <= high
    ensures [piece] + low <= [piece] + frames <= [piece] + high
  {
  }

  lemma SandwichLongFrame(separator: bytes, max: nat, buffer: bytes, more: bytes)
    requires separator != [] && Find(buffer, separator, 0) > max
    ensures Sandwiched(separator, max, Session([], TooLong, 0), buffer + more)
  {
    var p := Find(buffer, separator, 0);
    CutStep(separator, buffer, more);
    DeliverableHead(Pieces(separator, buffer[p + |separator|..] + more), buffer[..p], max);
    DeliverableHead(Pieces(separator, buffer[p + |separator|..] + more), buffer[..p], max - |separator| + 1);
  }

  lemma SandwichOverflow(separator: bytes, max: nat, buffer: bytes, more: bytes)
    requires separator != [] && Find(buffer, separator, 0) < 0 && |buffer| > max
    ensures Sandwiched(separator, max, Session([], TooLong, 0), buffer + more)
  {
    FirstPieceOutgrowsBuffer(separator, buffer, more);
    var s := buffer + more;
    if Find(s, separator, 0) >= 0 {
      assert |Pieces(separator, s)[0]| > max - |separator| + 1;
    }
  }

  /**
   Whatever the chunking, the frames lie between two chunk-free readings of the stream:
   measuring pieces with all but one separator byte, and measuring pieces alone. A run that
   ends with the peer's close has lost nothing, and a one-byte separator leaves no gap.
   */
  lemma {:induction false} LineSandwich(separator: bytes, max: nat, buffer: bytes, chunks: seq<bytes>)
    requires separator != []
    ensures Sandwiched(separator, max, LineRun(separator, max, buffer, chunks), buffer + Flatten(chunks))
    decreases |chunks|, |buffer|
  {
    var p := Find(buffer, separator, 0);
    var more := Flatten(chunks);
    if p > max {
      SandwichLongFrame(separator, max, buffer, more);
    } else if p >= 0 {
      LineSandwich(separator, max, buffer[p + |separator|..], chunks);
      SandwichCut(separator, max, buffer, more,
                  LineRun(separator, max, buffer[p + |separator|..], chunks));
    } else if |buffer| > max {
      SandwichOverflow(separator, max, buffer, more);
    } else if chunks == [] {
      assert buffer + more == buffer;
    } else {
      assert buffer + more == (buffer + chunks[0]) + Flatten(chunks[1..]);
      LineSandwich(separator, max, buffer + chunks[0], chunks[1..]);
    }
  }

  /** With a separator of one byte the chunking makes no difference at all. */
  lemma OneByteSeparator(separator: bytes, max: nat, chunks: seq<bytes>)
    requires |separator| == 1
    ensures LineRun(separator, max, [], chunks) == LineMeaning(separator, max, Flatten(chunks))
  {
    assert [] + Flatten(chunks) == Flatten(chunks);
    LineSandwich(separator, max, [], chunks);
  }

  lemma {:induction false} LongPieceStops(pieces: seq<bytes>, limit: nat)
    ensures forall f :: f in Deliverable(pieces, limit) ==> |f| <= limit
    ensures Oversized(pieces, limit) ==> Deliverable(pieces, limit) < NonEmpty(pieces)
  {
    if pieces != [] {
      var piece, tail := pieces[0], pieces[1..];
      assert pieces == [piece] + tail;
      LongPieceStops(tail, limit);
      DeliverableHead(tail, piece, limit);
    }
  }

  /** A piece longer than the limit is never delivered, and the connection does not outlive it. */
  lemma LongPieceEndsConnection(separator: bytes, max: nat, chunks: seq<bytes>)
    requires separator != []
    ensures var pieces, run := Pieces(separator, Flatten(chunks)), LineRun(separator, max, [], chunks);
            && (forall f :: f in run.frames ==> |f| <= max)
            && (Oversized(pieces, max) ==> run.end != Closed && run.frames < NonEmpty(pieces))
  {
    assert [] + Flatten(chunks) == Flatten(chunks);
    LineSandwich(separator, max, [], chunks);
    LongPieceStops(Pieces(separator, Flatten(chunks)), max);
  }

  /** One byte per read meets the lower reading exactly, so that bound cannot be raised. */
  lemma {:induction false} LineBytewise(separator: bytes, max: nat, buffer: bytes, rest: bytes)
    requires separator != [] && |buffer| <= max + 1
    requires Find(buffer, separator, 0) in {-1, |buffer| - |separator|}
    ensures LineRun(separator, max, buffer, Bytewise(rest)).frames
         == Deliverable(Pieces(separator, buffer + rest), max - |separator| + 1)
    decreases |rest|, |buffer|
  {
    var p := Find(buffer, separator, 0);
    var low := max - |separator| + 1;
    if p >= 0 {
      CutStep(separator, buffer, rest);
      assert buffer[p + |separator|..] == [];
      assert [] + rest == rest;
      DeliverableHead(Pieces(separator, rest), buffer[..p], low);
      LineBytewise(separator, max, [], rest);
    } else if |buffer| > max {
      FirstPieceOutgrowsBuffer(separator, buffer, rest);
      if Find(buffer + rest, separator, 0) >= 0 {
        assert |Pieces(separator, buffer + rest)[0]| > low;
      }
    } else if rest == [] {
      assert buffer + rest == buffer;
    } else {
      BytewiseHead(rest);
      var next := buffer + [rest[0]];
      assert next + rest[1..] == buffer + rest;
      var q := Find(next, separator, 0);
      if q >= 0 && q + |separator| <= |buffer| {
        OccursInPrefix(buffer, [rest[0]], separator, q);
      }
      LineBytewise(separator, max, next, rest[1..]);
    }
  }

  /** Each piece still needed for a later frame fits with all but one separator byte. */
  ghost predicate PiecesFit(pieces: seq<bytes>, limit: int) {
    forall i, j :: 0 <= i <= j < |pieces| && pieces[j] != [] ==> |pieces[i]| <= limit
  }

  lemma {:induction false} FitMeansDelivered(pieces: seq<bytes>, limit: int)
    ensures PiecesFit(pieces, limit) <==> Deliverable(pieces, limit) == NonEmpty(pieces)
  {
    if pieces != [] {
      var tail := pieces[1..];
      FitMeansDelivered(tail, limit);
      NoFrames(tail);
      if PiecesFit(pieces, limit) {
        forall i, j | 0 <= i <= j < |tail| && tail[j] != [] ensures |tail[i]| <= limit {
          assert tail[i] == pieces[i + 1] && tail[j] == pieces[j + 1];
        }
        if |pieces[0]| > limit {
          forall j | 0 <= j < |tail| ensures tail[j] == [] {
            assert tail[j] == pieces[j + 1];
          }
        }
      } else {
        var i, j :| 0 <= i <= j < |pieces| && pieces[j] != [] && |pieces[i]| > limit;
        if |pieces[0]| <= limit {
          assert tail[i - 1] == pieces[i] && tail[j - 1] == pieces[j];
          assert ([pieces[0]] + Deliverable(tail, limit))[1..] == Deliverable(tail, limit);
          assert ([pieces[0]] + NonEmpty(tail))[1..] == NonEmpty(tail);
        } else if j > 0 {
          assert tail[j - 1] == pieces[j];
        }
      }
    }
  }

  lemma {:induction false} NoFrames(pieces: seq<bytes>)
    ensures NonEmpty(pieces) == [] <==> forall j :: 0 <= j < |pieces| ==> pieces[j] == []
  {
    if pieces != [] {
      NoFrames(pieces[1..]);
      if NonEmpty(pieces) == [] {
        forall j | 0 <= j < |pieces| ensures pieces[j] == [] {
          assert j > 0 ==> pieces[j] == pieces[1..][j - 1];
        }
      }
    }
  }

  lemma FitDelivers(separator: bytes, max: nat, s: bytes, chunks: seq<bytes>)
    requires separator != [] && Flatten(chunks) == s
    requires PiecesFit(Pieces(separator, s), max - |separator| + 1)
    ensures LineRun(separator, max, [], chunks).frames == NonEmpty(Pieces(separator, s))
  {
    var pieces := Pieces(separator, s);
    assert [] + s == s;
    LineSandwich(separator, max, [], chunks);
    FitMeansDelivered(pieces, max - |separator| + 1);
    DeliverableMonotone(pieces, max);
    PrefixSqueeze(NonEmpty(pieces), LineRun(separator, max, [], chunks).frames, Deliverable(pieces, max));
  }

  lemma PrefixSqueeze(a: seq<bytes>, b: seq<bytes>, c: seq<bytes>)
    requires a <= b <= c <= a
    ensures a == b
  {
  }

  ghost predicate AlwaysDelivered(separator: bytes, max: nat, s: bytes)
    requires separator != []
  {
    forall chunks :: ValidChunks(chunks) && Flatten(chunks) == s ==>
      LineRun(separator, max, [], chunks).frames == NonEmpty(Pieces(separator, s))
  }

  lemma BytewiseReading(separator: bytes, max: nat, s: bytes)
    requires separator != []
    ensures LineRun(separator, max, [], Bytewise(s)).frames == Deliverable(Pieces(separator, s), max - |separator| + 1)
  {
    assert [] + s == s;
    LineBytewise(separator, max, [], s);
  }

  lemma GapLoses(separator: bytes, max: nat, s: bytes)
    requires separator != []
    requires !PiecesFit(Pieces(separator, s), max - |separator| + 1)
    ensures LineRun(separator, max, [], Bytewise(s)).frames != NonEmpty(Pieces(separator, s))
  {
    BytewiseReading(separator, max, s);
    GapsCutShort(Pieces(separator, s), max - |separator| + 1);
  }

  lemma GapsCutShort(pieces: seq<bytes>, limit: int)
    ensures Deliverable(pieces, limit) == NonEmpty(pieces) ==> PiecesFit(pieces, limit)
  {
    FitMeansDelivered(pieces, limit);
  }

  /** Exactly when every chunking of a stream delivers every non-empty piece. */
  lemma LineDeliveryIff(separator: bytes, max: nat, s: bytes)
    requires separator != []
    ensures AlwaysDelivered(separator, max, s)
       <==> PiecesFit(Pieces(separator, s), max - |separator| + 1)
  {
    if PiecesFit(Pieces(separator, s), max - |separator| + 1) {
      forall chunks | ValidChunks(chunks) && Flatten(chunks) == s
        ensures LineRun(separator, max, [], chunks).frames == NonEmpty(Pieces(separator, s))
      {
        FitDelivers(separator, max, s, chunks);
      }
    } else {
      GapLoses(separator, max, s);
      assert ValidChunks(Bytewise(s)) && Flatten(Bytewise(s)) == s;
    }
  }

  lemma {:induction false} DeliverableMonotone(pieces: seq<bytes>, limit: int)
    ensures Deliverable(pieces, limit) <= NonEmpty(pieces)
  {
    if pieces != [] {
      DeliverableMonotone(pieces[1..], limit);
    }
  }

  /** Pieces that fit, with a rest that fits, leave the connection to the peer's close. */
  lemma {:induction false} FitEndsClosed(separator: bytes, max: nat, buffer: bytes, chunks: seq<bytes>)
    requires separator != []
    requires var s := buffer + Flatten(chunks);
             && |Rest(separator, s)| <= max
             && forall i :: 0 <= i < |Pieces(separator, s)| ==> |Pieces(separator, s)[i]| + |separator| - 1 <= max
    ensures LineRun(separator, max, buffer, chunks).end == Closed && LineRun(separator, max, buffer, chunks).resyncs == 0
    decreases |chunks|, |buffer|
  {
    var p, more := Find(buffer, separator, 0), Flatten(chunks);
    if p >= 0 {
      CutStep(separator, buffer, more);
      FirstFits(separator, max, buffer[..p], Pieces(separator, buffer[p + |separator|..] + more));
      FitEndsClosed(separator, max, buffer[p + |separator|..], chunks);
    } else {
      BufferFits(separator, max, buffer, more);
      if chunks == [] {
        assert buffer + more == buffer;
      } else {
        assert buffer + more == (buffer + chunks[0]) + Flatten(chunks[1..]);
        FitEndsClosed(separator, max, buffer + chunks[0], chunks[1..]);
      }
    }
  }

  lemma FirstFits(separator: bytes, max: nat, piece: bytes, pieces: seq<bytes>)
    requires separator != []
    requires forall i :: 0 <= i < |[piece] + pieces| ==> |([piece] + pieces)[i]| + |separator| - 1 <= max
    ensures |piece| <= max && forall i :: 0 <= i < |pieces| ==> |pieces[i]| + |separator| - 1 <= max
  {
    var all := [piece] + pieces;
    assert |all[0]| + |separator| - 1 <= max;
    forall i | 0 <= i < |pieces| ensures |pieces[i]| + |separator| - 1 <= max {
      assert pieces[i] == all[i + 1];
    }
  }

  lemma BufferFits(separator: bytes, max: nat, buffer: bytes, more: bytes)
    requires separator != [] && Find(buffer, separator, 0) < 0
    requires var s := buffer + more;
             && |Rest(separator, s)| <= max
             && forall i :: 0 <= i < |Pieces(separator, s)| ==> |Pieces(separator, s)[i]| + |separator| - 1 <= max
    ensures |buffer| <= max
  {
    FirstPieceOutgrowsBuffer(separator, buffer, more);
    var s := buffer + more;
    if Find(s, separator, 0) >= 0 {
      assert |Pieces(separator, s)[0]| + |separator| - 1 <= max;
    }
  }

  /** What the sender joined is what every chunking delivers, when the pieces fit. */
  lemma LineRoundTrip(separator: bytes, max: nat, messages: seq<bytes>, chunks: seq<bytes>)
    requires separator != []
    requires forall i :: 0 <= i < |messages| ==>
               messages[i] != [] && EndsFirst(messages[i], separator)
               && |messages[i]| + |separator| - 1 <= max
    requires Flatten(chunks) == Join(separator, messages)
    ensures LineRun(separator, max, [], chunks) == Session(messages, Closed, 0)
  {
    assert Join(separator, messages) + [] == Join(separator, messages);
    PiecesOfJoin(separator, messages, []);
    AllNonEmpty(messages);
    FitDelivers(separator, max, Join(separator, messages), chunks);
    assert [] + Flatten(chunks) == Flatten(chunks);
    FitEndsClosed(separator, max, [], chunks);
  }

  lemma {:induction false} AllNonEmpty(pieces: seq<bytes>)
    requires forall i :: 0 <= i < |pieces| ==> pieces[i] != []
    ensures NonEmpty(pieces) == pieces
  {
    if pieces != [] {
      AllNonEmpty(pieces[1..]);
    }
  }
}
