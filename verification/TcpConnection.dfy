/**
 One TCP connection: the receive buffer cut in place, the frame readers, and the handler
 loop that drains them. `incoming` holds what the socket will still return, one element a
 call of `recv`; when it is empty the peer has closed, gone idle or failed.
 */
module TcpConnection {
  import opened Bytes
  import opened Common
  import opened LineFraming
  import opened HeadTailFraming

  datatype Framing = Line | Fixed | HeadTail | Raw | Unsupported(name: string)

  datatype Config = Config(framing: Framing, separator: bytes, max: int, frameLength: int, delimiters: Delimiters) {
    predicate Valid() {
      separator != [] && max > 0 && Usable()
    }

    /** The framing is known and its own settings can be used. */
    predicate Usable() {
      match framing
      case Line => true
      case Raw => true
      case Fixed => frameLength > 0
      case HeadTail => delimiters.Valid()
      case Unsupported(_) => false
    }

    /**
     The settings a server runs with: an empty separator becomes a line feed, a limit that is
     not positive the configured one, and a framing that cannot be used line framing.
     */
    function Effective(defaultMax: int): (c: Config)
      requires defaultMax > 0
      ensures c.Valid() && (Valid() ==> c == this)
      ensures c.framing == (if Usable() then framing else Line)
      ensures c.separator == (if separator == [] then [10] else separator)
      ensures c.max == (if max <= 0 then defaultMax else max)
      ensures c.frameLength == frameLength && c.delimiters == delimiters
    {
      var known := if framing.Unsupported? then this.(framing := Line) else this;
      var separated := if separator == [] then known.(separator := [10]) else known;
      var limited := if max <= 0 then separated.(max := defaultMax) else separated;
      var fixed := if limited.framing == Fixed && frameLength <= 0 then limited.(framing := Line) else limited;
      if fixed.framing == HeadTail && (delimiters.head == [] || delimiters.tail == [])
      then fixed.(framing := Line) else fixed
    }
  }

  /** What a frame reader returns: a frame, or the reason the caller must end the connection. */
  datatype Read = Frame(data: bytes) | Ended(why: End)

  /** Each unit of credit pays for one buffer of bytes cut. */
  lemma Spend(cut: int, more: int, credit: nat, newCredit: nat, bound: nat)
    requires cut <= credit * bound && credit <= newCredit
    requires more <= 0 || (more <= bound && credit < newCredit)
    ensures cut + more <= newCredit * bound
  {
    assert (credit + 1) * bound <= newCredit * bound || credit == newCredit;
    assert credit * bound <= newCredit * bound;
  }

  class Connection {
    const config: Config
    var buffer: bytes
    var incoming: seq<bytes>
    var resyncs: nat          // consecutive resyncs, reset by every delivered frame
    ghost var resynced: nat   // all resyncs of the connection

    ghost predicate Valid()
      reads this
    {
      config.Valid() && ValidChunks(incoming)
    }

    /** Everything the peer sent that has not been cut off the buffer. */
    ghost function Stream(): bytes
      reads this
    {
      buffer + Flatten(incoming)
    }

    /** Bytes received or still to come, less those cut off the buffer. */
    ghost function Uncut(): nat
      reads this
    {
      |buffer| + |Flatten(incoming)|
    }

    constructor (config: Config, incoming: seq<bytes>)
      requires config.Valid() && ValidChunks(incoming)
      ensures Valid() && this.config == config && this.incoming == incoming
      ensures buffer == [] && resyncs == 0 && resynced == 0
    {
      this.config, this.incoming := config, incoming;
      buffer, resyncs, resynced := [], 0, 0;
    }

    /** Appends one chunk, or reports that no more will come. */
    method RecvMore() returns (more: bool)
      requires Valid()
      modifies this`buffer, this`incoming
      ensures Valid() && more == (old(incoming) != [])
      ensures more ==> buffer == old(buffer) + old(incoming)[0] && incoming == old(incoming)[1..]
      ensures !more ==> buffer == old(buffer) && incoming == old(incoming)
      ensures Stream() == old(Stream())
      ensures |buffer| <= |old(buffer)| + RECV_CHUNK
    {
      more := incoming != [];
      if more {
        buffer, incoming := buffer + incoming[0], incoming[1..];
      }
    }

    /** Receives behind an incomplete frame, unless that is too long already or no more comes. */
    method ReceiveOrEnd() returns (ended: Option<Read>)
      requires Valid()
      modifies this`buffer, this`incoming
      ensures Valid() && Uncut() == old(Uncut())
      ensures ended.None? <==> |old(buffer)| <= config.max && old(incoming) != []
      ensures ended.None? ==> buffer == old(buffer) + old(incoming)[0] && incoming == old(incoming)[1..]
      ensures ended.None? ==> |buffer| <= config.max + RECV_CHUNK
      ensures ended.Some? ==>
                && buffer == old(buffer) && incoming == old(incoming)
                && ended.value == Ended(if |buffer| > config.max then TooLong else Closed)
    {
      if |buffer| > config.max {
        return Some(Ended(TooLong));
      }
      var more := RecvMore();
      return if more then None else Some(Ended(Closed));
    }

    method ReadLineFrame() returns (r: Read)
      requires Valid()
      modifies this`buffer, this`incoming
      ensures Valid()
      ensures var before := old(LineRun(config.separator, config.max, buffer, incoming));
              match r
              case Frame(data) =>
                data != [] && |data| <= config.max
                && before == LineRun(config.separator, config.max, buffer, incoming).Before(data)
              case Ended(why) => before == Session([], why, 0)
      ensures |old(buffer)| <= config.max + RECV_CHUNK ==> |buffer| <= config.max + RECV_CHUNK
      ensures |incoming| < |old(incoming)| || (incoming == old(incoming) && (r.Frame? ==> |buffer| < |old(buffer)|))
    {
      while true
        invariant Valid()
        invariant LineRun(config.separator, config.max, buffer, incoming)
               == old(LineRun(config.separator, config.max, buffer, incoming))
        invariant |old(buffer)| <= config.max + RECV_CHUNK ==> |buffer| <= config.max + RECV_CHUNK
        invariant |incoming| < |old(incoming)| || (incoming == old(incoming) && |buffer| <= |old(buffer)|)
        decreases |incoming|, |buffer|
      {
        var separatorAt := Find(buffer, config.separator, 0);
        if separatorAt >= 0 {
          var frame := buffer[..separatorAt];
          buffer := buffer[separatorAt + |config.separator|..];
          if frame == [] {
            continue;
          }
          if |frame| > config.max {
            return Ended(TooLong);
          }
          return Frame(frame);
        }
        var ended := ReceiveOrEnd();
        if ended.Some? {
          return ended.value;
        }
      }
    }

    method ReadFixedFrame() returns (r: Read)
      requires Valid() && config.framing == Fixed
      modifies this`buffer, this`incoming
      ensures Valid()
      ensures match r
              case Frame(data) => |data| == config.frameLength && data + Stream() == old(Stream())
              case Ended(why) => why == Closed && |old(Stream())| < config.frameLength
      ensures |old(buffer)| < config.frameLength + RECV_CHUNK ==> |buffer| < config.frameLength + RECV_CHUNK
      ensures |incoming| < |old(incoming)| || (incoming == old(incoming) && (r.Frame? ==> |buffer| < |old(buffer)|))
    {
      while |buffer| < config.frameLength
        invariant Valid() && Stream() == old(Stream())
        invariant |old(buffer)| < config.frameLength + RECV_CHUNK ==> |buffer| < config.frameLength + RECV_CHUNK
        invariant |incoming| < |old(incoming)| || (incoming == old(incoming) && buffer == old(buffer))
        decreases |incoming|
      {
        var more := RecvMore();
        if !more {
          assert Flatten(incoming) == [];
          return Ended(Closed);
        }
      }
      var frame := buffer[..config.frameLength];
      buffer := buffer[config.frameLength..];
      assert frame + Stream() == old(Stream());
      return Frame(frame);
    }

    ghost function Run(): Session
      requires Valid() && config.framing == HeadTail
      reads this
    {
      HeadTailRun(config.delimiters, config.max, buffer, incoming, resyncs)
    }

    ghost predicate AtHead()
      reads this
    {
      OccursAt(buffer, config.delimiters.head, 0)
    }

    /**
     One turn of the reader's loop: the result if the turn ends it. A turn that cuts bytes and
     goes on either counts a resync or brings the buffer to a head for the first time.
     */
    method HeadTailTurn() returns (r: Option<Read>)
      requires Valid() && config.framing == HeadTail
      modifies this
      ensures Valid() && old(resynced) <= resynced <= old(resynced) + 1
      ensures match r
              case None => old(Run()) == Counted(Run(), resynced - old(resynced))
              case Some(Frame(data)) =>
                |data| <= config.max && resyncs == 0 && resynced == old(resynced)
                && old(Run()) == Run().Before(data)
              case Some(Ended(why)) => old(Run()) == Session([], why, resynced - old(resynced))
      ensures r.None? ==>
                && resyncs - old(resyncs) == resynced - old(resynced)
                && (old(resyncs) <= MAX_FRAME_RESYNCS ==> resyncs <= MAX_FRAME_RESYNCS)
                && old(Uncut()) - |old(buffer)| <= Uncut() <= old(Uncut())
                && (old(AtHead()) ==> AtHead())
                && (Uncut() < old(Uncut()) ==> AtHead() && (resyncs > old(resyncs) || !old(AtHead())))
                && |buffer| <= Max(|old(buffer)|, config.max + RECV_CHUNK)
                && (|incoming| < |old(incoming)| || (incoming == old(incoming) && |buffer| < |old(buffer)|))
      ensures r.Some? ==> incoming == old(incoming) && |buffer| <= |old(buffer)|
                          && (r.value.Frame? ==> |buffer| < |old(buffer)|)
    {
      var headAt := Find(buffer, config.delimiters.head, 0);
      if headAt < 0 {
        r := ReceiveOrEnd();
        return;
      }
      CutGarbage(headAt);
      r := TurnAtHead();
    }

    /** The bytes in front of the head are cut off the buffer. */
    method CutGarbage(headAt: nat)
      requires Valid() && config.framing == HeadTail && headAt == Find(buffer, config.delimiters.head, 0)
      modifies this`buffer
      ensures Valid() && AtHead() && Run() == old(Run())
      ensures buffer == old(buffer)[headAt..] && Uncut() == old(Uncut()) - headAt
      ensures old(AtHead()) ==> headAt == 0
    {
      OccursInSuffix(buffer, headAt, config.delimiters.head, 0);
      DropGarbage(config.delimiters, config.max, buffer, incoming, resyncs);
      buffer := buffer[headAt..];
    }

    /** The rest of a turn, when the buffer starts with a head. */
    method TurnAtHead() returns (r: Option<Read>)
      requires Valid() && config.framing == HeadTail && AtHead()
      modifies this
      ensures Valid() && old(resynced) <= resynced <= old(resynced) + 1
      ensures match r
              case None => old(Run()) == Counted(Run(), resynced - old(resynced))
              case Some(Frame(data)) =>
                |data| <= config.max && resyncs == 0 && resynced == old(resynced)
                && old(Run()) == Run().Before(data)
              case Some(Ended(why)) => old(Run()) == Session([], why, resynced - old(resynced))
      ensures r.None? ==>
                && resyncs - old(resyncs) == resynced - old(resynced)
                && (old(resyncs) <= MAX_FRAME_RESYNCS ==> resyncs <= MAX_FRAME_RESYNCS)
                && old(Uncut()) - |old(buffer)| <= Uncut() <= old(Uncut()) && AtHead()
                && (Uncut() < old(Uncut()) ==> resyncs > old(resyncs))
                && |buffer| <= Max(|old(buffer)|, config.max + RECV_CHUNK)
                && (|incoming| < |old(incoming)| || (incoming == old(incoming) && |buffer| < |old(buffer)|))
      ensures r.Some? ==> incoming == old(incoming) && |buffer| <= |old(buffer)|
                          && (r.value.Frame? ==> |buffer| < |old(buffer)|)
    {
      var head, tail := config.delimiters.head, config.delimiters.tail;
      var tailAt := Find(buffer, tail, |head|);
      if tailAt >= 0 {
        var payload := buffer[|head|..tailAt];
        buffer := buffer[tailAt + |tail|..];
        if |payload| > config.max {
          return Some(Ended(TooLong));
        }
        resyncs := 0;
        return Some(Frame(payload));
      }
      var innerHead := Find(buffer, head, |head|);
      if innerHead >= 0 {
        OccursInSuffix(buffer, innerHead, head, 0);
        buffer := buffer[innerHead..];
        resyncs, resynced := resyncs + 1, resynced + 1;
        return if resyncs > MAX_FRAME_RESYNCS then Some(Ended(TooManyResyncs)) else None;
      }
      ghost var seen := buffer;
      r := ReceiveOrEnd();
      if r.None? {
        OccursInPrefix(seen, old(incoming)[0], head, 0);
      }
    }

    /**
     The bound on effort: no call that starts behind a delivered frame receives more than 258
     buffers' worth of bytes before it delivers the next one or ends the connection.
     */
    method ReadHeadTailFrame() returns (r: Read)
      requires Valid() && config.framing == HeadTail
      modifies this
      ensures Valid() && resynced >= old(resynced)
      ensures match r
              case Frame(data) =>
                |data| <= config.max && resyncs == 0
                && old(Run()) == Counted(Run().Before(data), resynced - old(resynced))
              case Ended(why) => old(Run()) == Session([], why, resynced - old(resynced))
      ensures |old(buffer)| <= config.max + RECV_CHUNK ==> |buffer| <= config.max + RECV_CHUNK
      ensures old(resyncs) == 0 && |old(buffer)| <= config.max + RECV_CHUNK ==>
                |old(Flatten(incoming))| - |Flatten(incoming)| <= 258 * (config.max + RECV_CHUNK)
      ensures |incoming| < |old(incoming)| || (incoming == old(incoming) && (r.Frame? ==> |buffer| < |old(buffer)|))
    {
      ghost var bound := config.max + RECV_CHUNK;
      ghost var tame := old(resyncs) == 0 && |old(buffer)| <= bound;
      ghost var cut := 0;
      while true
        invariant Valid() && resynced >= old(resynced)
        invariant old(Run()) == Counted(Run(), resynced - old(resynced))
        invariant |old(buffer)| <= bound ==> |buffer| <= bound
        invariant old(Uncut()) == Uncut() + cut
        invariant tame ==> resyncs <= MAX_FRAME_RESYNCS && cut <= Credit() * bound
        invariant |incoming| < |old(incoming)| || (incoming == old(incoming) && |buffer| <= |old(buffer)|)
        decreases |incoming|, |buffer|
      {
        label turn:
        var turn := HeadTailTurn();
        if turn.Some? {
          if tame {
            Spend(cut, 0, old@turn(Credit()), 257, bound);
          }
          return turn.value;
        }
        if tame {
          Spend(cut, old@turn(Uncut()) - Uncut(), old@turn(Credit()), Credit(), bound);
        }
        cut := cut + old@turn(Uncut()) - Uncut();
      }
    }

    ghost function Credit(): nat
      reads this
    {
      resyncs + if AtHead() then 1 else 0
    }

    /** The handler's loop: frames are delivered until the reader ends the connection. */
    method HandleLines() returns (delivered: seq<bytes>, end: End)
      requires Valid() && buffer == []
      modifies this
      ensures Session(delivered, end, 0) == old(LineRun(config.separator, config.max, [], incoming))
      ensures Sandwiched(config.separator, config.max, Session(delivered, end, 0), old(Flatten(incoming)))
      ensures |buffer| <= config.max + RECV_CHUNK
    {
      LineSandwich(config.separator, config.max, [], incoming);
      assert [] + Flatten(incoming) == Flatten(incoming);
      delivered := [];
      while true
        invariant Valid() && |buffer| <= config.max + RECV_CHUNK
        invariant Onward(delivered, LineRun(config.separator, config.max, buffer, incoming))
               == old(LineRun(config.separator, config.max, [], incoming))
        decreases |incoming|, |buffer|
      {
        var r := ReadLineFrame();
        match r
        case Ended(why) => return delivered, why;
        case Frame(data) =>
          assert delivered + ([data] + LineRun(config.separator, config.max, buffer, incoming).frames)
              == (delivered + [data]) + LineRun(config.separator, config.max, buffer, incoming).frames;
          delivered := delivered + [data];
      }
    }

    method HandleHeadTail() returns (delivered: seq<bytes>, end: End)
      requires Valid() && config.framing == HeadTail && buffer == [] && resyncs == 0 && resynced == 0
      modifies this
      ensures Session(delivered, end, resynced) == old(HeadTailRun(config.delimiters, config.max, [], incoming, 0))
      ensures |buffer| <= config.max + RECV_CHUNK
    {
      delivered := [];
      while true
        invariant Valid() && |buffer| <= config.max + RECV_CHUNK
        invariant Counted(Onward(delivered, Run()), resynced)
               == old(HeadTailRun(config.delimiters, config.max, [], incoming, 0))
        decreases |incoming|, |buffer|
      {
        var r := ReadHeadTailFrame();
        match r
        case Ended(why) => return delivered, why;
        case Frame(data) =>
          assert delivered + ([data] + Run().frames) == (delivered + [data]) + Run().frames;
          delivered := delivered + [data];
      }
    }
  }

  /** A session seen after `delivered` frames, and one with `n` more resyncs. */
  ghost function Onward(delivered: seq<bytes>, s: Session): Session {
    s.(frames := delivered + s.frames)
  }

  ghost function Counted(s: Session, n: int): Session
    requires n >= 0
  {
    s.(resyncs := s.resyncs + n)
  }
}
