/**
 * The connection that feeds the HTTP/1.1 parser: arrivals are buffered, messages that came in
 * together are drained one after the other, and a handler may lock the connection when a message is
 * complete and release it later. The memory of earlier bytes is given up between messages. Within a message
 * the buffer may be replaced by a larger one, while the parser goes on with pointers into the old one.
 */
module HttpStream {
  import opened Common
  import opened HttpTypes
  import opened HttpStep
  import opened HttpInvariant
  import opened HttpRun
  import opened HttpLocks
  import opened HttpMarks
  import HttpParser

  /**
   * Open: the connection reads requests. Http2: it opened with the preface of the other protocol.
   * Closed: a request was malformed. Handed: an upgrade or a tunnel took the connection over.
   * Undefined: a length left its int. Dangling: the parser is about to go on with a pointer into a buffer
   * that was replaced, which C gives no meaning either.
   */
  datatype Phase = Open | Http2 | Closed | Handed | Undefined | Dangling

  const PREFACE := Ascii("PRI * HTTP/2.0\r\n\r\nSM\r\n\r\n")

  /** The preface is the one of section 3.4 of RFC 9113, byte by byte. */
  lemma PrefaceBytes()
    ensures |PREFACE| == 24
    ensures PREFACE[0] == 0x50 && PREFACE[1] == 0x52 && PREFACE[2] == 0x49 && PREFACE[3] == 0x20 && PREFACE[4] == 0x2a && PREFACE[5] == 0x20
    ensures PREFACE[6] == 0x48 && PREFACE[7] == 0x54 && PREFACE[8] == 0x54 && PREFACE[9] == 0x50 && PREFACE[10] == 0x2f && PREFACE[11] == 0x32
    ensures PREFACE[12] == 0x2e && PREFACE[13] == 0x30 && PREFACE[14] == 0x0d && PREFACE[15] == 0x0a && PREFACE[16] == 0x0d && PREFACE[17] == 0x0a
    ensures PREFACE[18] == 0x53 && PREFACE[19] == 0x4d && PREFACE[20] == 0x0d && PREFACE[21] == 0x0a && PREFACE[22] == 0x0d && PREFACE[23] == 0x0a
  {
  }

  function PhaseOf(status: Status): Phase {
    match status
    case Reading | Complete => Open
    case Failed => Closed
    case Switched => Handed
    case Overflowed => Undefined
  }

  // ---- One call of the parser within a stream ---------------------------------------------------

  lemma OpenedOk()
    ensures StreamOk(OPENED)
  {
  }

  lemma RequestNotEof(p: Parser, pos: nat)
    requires Sound(p, pos) && p.kind == Request
    ensures p.state != BodyIdentityEof
  {
  }

  /** What the stream says of the parser it is at. */
  lemma StreamAt(arrived: seq<byte>, pos: nat, p: Parser, log: seq<Event>)
    requires pos <= |arrived| && FeedAll(OPENED, arrived[..pos]) == Stream(p, log, pos, Reading)
    ensures Sound(p, pos) && Rested(p)
  {
    hide Sound;
    hide Rested;
    hide FeedAll;
    OpenedOk();
    FeedAllOk(OPENED, arrived[..pos]);
  }

  /** The stream behind a call over all that has arrived. */
  lemma CallInStream(arrived: seq<byte>, pos: nat, p: Parser, log: seq<Event>)
    requires pos <= |arrived| && FeedAll(OPENED, arrived[..pos]) == Stream(p, log, pos, Reading)
    ensures var c := Process(p, log, arrived[pos..], pos);
            && FeedAll(OPENED, arrived[..pos + c.consumed]) == AfterCall(c, pos)
            && (c.status != Reading && c.status != Complete ==> FeedAll(OPENED, arrived) == AfterCall(c, pos))
  {
    hide Process;
    hide FeedAll;
    hide AfterCall;
    var c, n := Process(p, log, arrived[pos..], pos), pos + Process(p, log, arrived[pos..], pos).consumed;
    CallIsFeed(p, log, arrived[pos..], pos);
    FeedAllConcat(OPENED, arrived[..pos], arrived[pos..][..c.consumed]);
    assert arrived[..pos] + arrived[pos..][..c.consumed] == arrived[..n];
    FeedAllConcat(OPENED, arrived[..n], arrived[n..]);
    assert arrived[..n] + arrived[n..] == arrived;
    if c.status != Reading && c.status != Complete {
      AfterStopped(c, pos);
      FeedStopped(AfterCall(c, pos), arrived[n..]);
    }
  }

  lemma AfterStopped(c: Call, pos: nat)
    ensures c.status != Reading && c.status != Complete ==> AfterCall(c, pos).status == c.status
    ensures c.status != Reading && c.status != Complete ==> AfterCall(c, pos).log == c.log
    ensures c.status != Reading && c.status != Complete ==> AfterCall(c, pos).pos == pos + c.consumed
  {
  }

  /** Requests never have a body that ends with the stream, so the end of a call adds nothing. */
  lemma CallOfRequest(arrived: seq<byte>, pos: nat, p: Parser, log: seq<Event>)
    requires pos <= |arrived| && FeedAll(OPENED, arrived[..pos]) == Stream(p, log, pos, Reading)
    ensures var c := Process(p, log, arrived[pos..], pos);
            && EndOfCall(c) == c
            && (c.status == Complete ==> c.p.state == StartReq)
            && (c.status == Reading && c.p.state == StartReq ==> c.p == Reset(c.p))
  {
    hide Process;
    hide FeedAll;
    hide Sound;
    hide Emit;
    StreamAt(arrived, pos, p, log);
    CallInStream(arrived, pos, p, log);
    var c := Process(p, log, arrived[pos..], pos);
    ProcessSound(p, log, arrived[pos..], pos);
    ProcessKind(p, log, arrived[pos..], pos);
    OpenedOk();
    FeedAllOk(OPENED, arrived[..pos + c.consumed]);
    if c.status == Reading { RequestNotEof(c.p, pos + c.consumed); }
  }

  /** What a connection finds after the call of its parser over all that has arrived. */
  lemma CallResult(arrived: seq<byte>, pos: nat, p: Parser, log: seq<Event>)
    requires pos < |arrived| && FeedAll(OPENED, arrived[..pos]) == Stream(p, log, pos, Reading)
    ensures Sound(p, pos)
    ensures var c := EndOfCall(Process(p, log, arrived[pos..], pos));
            var n := pos + c.consumed;
            && pos < n <= |arrived|
            && (c.status == Reading ==> n == |arrived| && (c.p.state == StartReq ==> c.p == Reset(c.p)))
            && (c.status == Reading ==> FeedAll(OPENED, arrived[..n]) == Stream(c.p, c.log, n, Reading))
            && (c.status == Complete ==> c.p.state == StartReq)
            && (c.status == Complete ==> FeedAll(OPENED, arrived[..n]) == Stream(Reset(c.p), c.log, n, Reading))
            && (c.status != Reading && c.status != Complete ==>
                  && FeedAll(OPENED, arrived).status == c.status && FeedAll(OPENED, arrived).log == c.log
                  && FeedAll(OPENED, arrived).pos == n)
  {
    hide Process;
    hide FeedAll;
    hide Sound;
    hide EndOfCall;
    hide Reset;
    StreamAt(arrived, pos, p, log);
    CallInStream(arrived, pos, p, log);
    CallOfRequest(arrived, pos, p, log);
    AfterStopped(Process(p, log, arrived[pos..], pos), pos);
  }

  /** Where messages end within a call, and whether one does at its end. */
  lemma CallEndsAll(arrived: seq<byte>, pos: nat, p: Parser, log: seq<Event>)
    requires pos < |arrived| && FeedAll(OPENED, arrived[..pos]) == Stream(p, log, pos, Reading)
    ensures var c := EndOfCall(Process(p, log, arrived[pos..], pos));
            var n := pos + c.consumed;
            && (forall k :: pos < k < n ==> !EndsAt(arrived, k))
            && (pos < n <= |arrived| ==> (EndsAt(arrived, n) <==> c.status == Complete))
  {
    hide Process;
    hide FeedAll;
    hide EndsAt;
    hide EndOfCall;
    CallOfRequest(arrived, pos, p, log);
    var c := Process(p, log, arrived[pos..], pos);
    forall k | pos < k <= pos + c.consumed
      ensures EndsAt(arrived, k) <==> k == pos + c.consumed && c.status == Complete
    {
      CallEnds(arrived, pos, p, log, k);
    }
  }

  lemma {:induction false} ProcessKind(p: Parser, log: seq<Event>, data: seq<byte>, base: nat)
    requires Sound(p, base) && Rested(p)
    ensures Process(p, log, data, base).p.kind == Request
    decreases |data|
  {
    hide StepByte;
    hide Sound;
    hide Reset;
    hide EmitAll;
    if data != [] {
      var s := StepByte(p, data[0], base);
      StepRested(p, data[0], base);
      StepKeeps(p, data[0], base);
      if s.status == Reading { ProcessKind(s.p, EmitAll(log, s.events), data[1..], base + 1); }
    }
  }

  // ---- The decision between the protocols -------------------------------------------------------

  /** The bytes so far could still become the preface. */
  predicate Waiting(arrived: seq<byte>) {
    |arrived| < |PREFACE| && arrived <= PREFACE
  }

  /** Once the bytes differ from the preface they go on to differ. */
  lemma DecisionStays(arrived: seq<byte>, data: seq<byte>)
    requires !Waiting(arrived) && !(PREFACE <= arrived)
    ensures !Waiting(arrived + data) && !(PREFACE <= arrived + data)
  {
    if |arrived| < |PREFACE| {
      assert (arrived + data)[..|arrived|] == arrived;
    } else {
      assert (arrived + data)[..|PREFACE|] == arrived[..|PREFACE|];
    }
  }

  /** Comparing as many bytes as there are, up to the length of the preface, tells the cases apart. */
  lemma DecisionTaken(arrived: seq<byte>)
    ensures var n := if |arrived| < |PREFACE| then |arrived| else |PREFACE|;
            && (arrived[..n] != PREFACE[..n] <==> !Waiting(arrived) && !(PREFACE <= arrived))
            && (arrived[..n] == PREFACE[..n] && |arrived| >= |PREFACE| <==> PREFACE <= arrived)
    ensures Waiting(arrived) ==> !(PREFACE <= arrived)
  {
  }

  lemma FedPrefix(arrived: seq<byte>, data: seq<byte>, n: nat)
    requires n <= |arrived|
    ensures (arrived + data)[..n] == arrived[..n]
  {
  }

  class Connection {
    const http2: bool
    /** Whether the handler of a message holds the connection, by where the message ends in the stream. */
    const holds: nat -> bool
    const parser: HttpParser.Parsing
    var buffer: array?<byte>
    var bufferSize: nat
    var bufferOffset: nat
    var readOffset: nat
    var lock: bool
    var detect: bool
    var phase: Phase
    /** How many bytes were in buffers given up since: positions of the stream count them. */
    var released: nat
    /** The number of the buffer, which every allocation raises, and of the one the marks of the parser point into. */
    var block: nat
    var marksIn: nat
    ghost var arrived: seq<byte>
    /** How many bytes had arrived in front of each arrival. */
    ghost var cuts: seq<nat>
    /** How many bytes were read when the parser stopped. */
    ghost var stopped: nat
    /** How many bytes had been read when the connection was last released. */
    ghost var freed: nat

    ghost function Position(): nat
      reads this
    {
      released + readOffset
    }

    /** The buffer holds the bytes that arrived since the last one was given up. */
    ghost predicate Buffered()
      reads this, buffer
    {
      && readOffset <= bufferOffset <= bufferSize
      && (buffer == null ==> bufferSize == 0)
      && (buffer != null ==> bufferSize == buffer.Length)
      && released + bufferOffset == |arrived|
      && (buffer != null ==> buffer[..bufferOffset] == arrived[released..])
    }

    /** The decision between the protocols is the one that all the bytes so far call for. */
    ghost predicate Decided()
      reads this
    {
      && (detect <==> http2 && Waiting(arrived))
      && (phase == Http2 <==> http2 && PREFACE <= arrived)
      && (detect ==> phase == Open && !lock && Position() == 0)
    }

    /** The connection as a stream that has read up to here. */
    ghost function Here(): Stream
      reads this, parser
    {
      Stream(parser.saved, Joined(parser.calls), Position(), Reading)
    }

    /** The parser is where the bytes read so far take a connection, one by one. */
    ghost predicate Fed()
      reads this, parser
    {
      && (phase == Open || phase == Dangling ==> Position() <= |arrived|)
      && (phase == Open || phase == Dangling ==> FeedAll(OPENED, arrived[..Position()]) == Here())
      && (phase == Http2 ==> Joined(parser.calls) == [])
      && (phase != Open && phase != Http2 && phase != Dangling ==>
            && PhaseOf(FeedAll(OPENED, arrived).status) == phase && FeedAll(OPENED, arrived).log == Joined(parser.calls)
            && FeedAll(OPENED, arrived).pos == stopped)
    }

    /**
     * While the connection is open every mark points into the buffer at hand. It dangles when one does not; the
     * bytes read by then are those in front of some arrival.
     */
    ghost predicate Homed()
      reads this, parser
    {
      && (phase == Open ==> MarksFrom(parser.saved, released))
      && (phase == Open && buffer == null ==> parser.saved.state == StartReq)
      && (phase == Open && HasMark(parser.saved) ==> marksIn == block)
      && (phase == Dangling ==> HasMark(parser.saved) && marksIn != block && Position() in cuts)
    }

    /** An arrival of n bytes does not find room in the buffer there is. */
    predicate Replaces(n: nat)
      reads this
    {
      buffer != null && bufferOffset + n > bufferSize
    }

    /** The size of the buffer once n more bytes have arrived. */
    function Room(n: nat): nat
      reads this, parser
    {
      if buffer == null then n
      else if !Replaces(n) then bufferSize
      else if bufferSize + parser.saved.savedLength > bufferOffset + n then bufferSize + parser.saved.savedLength
      else bufferOffset + n
    }

    /**
     * A locked connection is between messages. An unlocked one has read all that has arrived, and keeps no buffer
     * between messages.
     */
    ghost predicate AtRest()
      reads this, parser
    {
      phase == Open && !detect ==>
        && (buffer != null && readOffset == bufferOffset ==> parser.saved.state != StartReq)
        && if lock then parser.saved.state == StartReq else Position() == |arrived|
    }

    /** The connection has read on from where it was released, up to where a handler holds it. */
    ghost predicate Minded()
      reads this
    {
      phase == Open ==> freed <= Position() && Obeys(holds, arrived, freed, Position(), lock)
    }

    ghost predicate Valid()
      reads this, buffer, parser
    {
      Buffered() && Decided() && Fed() && AtRest() && Homed() && Minded()
    }

    constructor (http2: bool, holds: nat -> bool)
      ensures Valid() && fresh(parser) && this.http2 == http2 && this.holds == holds
      ensures arrived == [] && cuts == [] && phase == Open && !lock && buffer == null && freed == 0
    {
      this.http2 := http2;
      this.holds := holds;
      parser := new HttpParser.Parsing(FRESH);
      buffer, bufferSize, bufferOffset, readOffset := null, 0, 0, 0;
      lock, detect, phase := false, http2, Open;
      block, marksIn := 0, 0;
      arrived, released, cuts, stopped, freed := [], 0, [], 0, 0;
    }

    /** Makes room for size more bytes behind the ones that are buffered; a buffer that is too small is replaced. */
    method Reserve(size: nat)
      requires Buffered() && (buffer != null || size > 0)
      modifies this`buffer, this`bufferSize, this`block
      ensures Buffered() && buffer != null && bufferOffset + size <= bufferSize
      ensures bufferSize == old(Room(size))
      ensures buffer == old(buffer) || fresh(buffer)
      ensures if old(buffer != null && !Replaces(size)) then buffer == old(buffer) && block == old(block)
              else buffer != old(buffer) && block == old(block) + 1
    {
      if buffer == null {
        bufferSize := size;
        buffer := new byte[bufferSize];
        block := block + 1;
      } else if bufferOffset + size > bufferSize {
        var sizeOffset := bufferOffset + size;
        var sizeLength := bufferSize + parser.saved.savedLength;
        bufferSize := if sizeLength > sizeOffset then sizeLength else sizeOffset;
        var grown := new byte[bufferSize];
        forall k | 0 <= k < bufferOffset { grown[k] := buffer[k]; }
        assert grown[..bufferOffset] == buffer[..bufferOffset];
        buffer := grown;
        block := block + 1;
      }
    }

    /** Stores data behind the bytes that are buffered. */
    method Append(data: seq<byte>)
      requires Buffered() && buffer != null && bufferOffset + |data| <= bufferSize
      modifies buffer, this`bufferOffset, this`arrived, this`cuts
      ensures Buffered() && arrived == old(arrived) + data && bufferOffset == old(bufferOffset) + |data|
      ensures cuts == old(cuts) + [old(|arrived|)]
    {
      forall k | 0 <= k < |data| { buffer[bufferOffset + k] := data[k]; }
      ghost var was := old(buffer[..bufferOffset]);
      assert buffer[..bufferOffset + |data|] == was + data;
      assert arrived[released..] + data == (arrived + data)[released..];
      bufferOffset := bufferOffset + |data|;
      cuts := cuts + [|arrived|];
      arrived := arrived + data;
    }

    /** A handler asks for no further message to be read for now. */
    method Acquire()
      modifies this`lock
      ensures lock
      ensures old(Decided()) && !detect ==> Decided()
    {
      lock := true;
    }

    /**
     * One call of the parser over all that is buffered and not read. All that it hands over lies in the buffer.
     */
    method ParseNext() returns (processed: nat, status: Status)
      requires Buffered() && Decided() && Fed() && Homed() && phase == Open && !detect && buffer != null
      requires readOffset < bufferOffset
      modifies this`phase, this`readOffset, this`marksIn, this`stopped, parser
      ensures Buffered() && Decided() && Homed() && phase == PhaseOf(status)
      ensures CallsIn(parser.calls, old(parser.calls), released, |arrived|)
      ensures phase != Open ==> Fed()
      ensures phase == Open ==> readOffset == old(readOffset) + processed && processed > 0
      ensures phase == Open ==> FeedAll(OPENED, arrived[..Position()]) ==
                                if parser.saved.state == StartReq then Here().(p := Reset(parser.saved)) else Here()
      ensures status == Reading ==> readOffset == bufferOffset
      ensures status == Complete ==> parser.saved.state == StartReq
      ensures phase == Open ==> forall k :: old(Position()) < k < Position() ==> !EndsAt(arrived, k)
      ensures phase == Open ==> (EndsAt(arrived, Position()) <==> status == Complete)
    {
      hide EndsAt;
      hide Process;
      hide FeedAll;
      hide Sound;
      hide EndOfCall;
      hide Joined;
      hide Reset;
      hide Waiting;
      hide PREFACE;
      hide MarksOk;
      hide EndsInside;
      hide MarksFrom;
      hide HasMark;
      hide CallsIn;
      var unread := buffer[readOffset..bufferOffset];
      assert unread == arrived[Position()..];
      CallResult(arrived, Position(), parser.saved, Joined(parser.calls));
      CallEndsAll(arrived, Position(), parser.saved, Joined(parser.calls));
      processed := 0;
      var result;
      MarkedInside(arrived[..Position()]);
      stopped := Position() + EndOfCall(Process(parser.saved, Joined(parser.calls), unread, Position())).consumed;
      result, status := parser.ProcessData(unread, released + readOffset, released);
      marksIn := block;
      phase := PhaseOf(status);
      if phase == Open {
        processed := result;
        readOffset := readOffset + processed;
      }
    }

    /** Between messages: a fresh parser, and no buffer when nothing is left in it. */
    method Restart()
      requires Buffered() && parser.saved.state == StartReq
      modifies this, parser
      ensures old(Decided()) && !detect ==> Decided()
      ensures phase != Dangling ==> Homed()
      ensures stopped == old(stopped) && cuts == old(cuts) && freed == old(freed)
      ensures Buffered() && parser.saved == Reset(old(parser.saved)) && parser.calls == old(parser.calls)
      ensures parser.saved.state == StartReq
      ensures Position() == old(Position())
      ensures arrived == old(arrived) && lock == old(lock) && detect == old(detect) && phase == old(phase)
      ensures if old(readOffset == bufferOffset)
              then buffer == null && readOffset == bufferOffset == 0
              else && buffer == old(buffer) && readOffset == old(readOffset) && bufferOffset == old(bufferOffset)
                   && bufferSize == old(bufferSize) && released == old(released)
    {
      parser.saved := Reset(parser.saved);
      if readOffset == bufferOffset {
        released := released + bufferOffset;
        buffer, bufferSize, bufferOffset, readOffset := null, 0, 0, 0;
      }
    }

    /**
     * Reads one message, or what there is of it; more says whether another may follow at once.
     * At a complete message its handler acquires the connection if it is to hold it.
     */
    method ReadMessage() returns (more: bool)
      requires Buffered() && Decided() && Fed() && Homed() && phase == Open && !detect && !lock && buffer != null
      requires readOffset < bufferOffset
      modifies this, parser
      ensures Buffered() && Decided() && Fed() && Homed() && arrived == old(arrived) && !detect && phase != Dangling
      ensures CallsIn(parser.calls, old(parser.calls), old(released), |arrived|)
      ensures phase == Open ==> Position() > old(Position())
      ensures buffer != null ==>
                && buffer == old(buffer) && bufferOffset == old(bufferOffset) && bufferSize == old(bufferSize)
                && released == old(released)
      ensures lock ==> phase == Open && parser.saved.state == StartReq
      ensures phase == Open && buffer != null && readOffset == bufferOffset ==> parser.saved.state != StartReq
      ensures phase == Open && !more && !lock ==> Position() == |arrived|
      ensures more ==> phase == Open && buffer != null && old(readOffset) < readOffset < bufferOffset
      ensures more ==> bufferOffset == old(bufferOffset)
      ensures freed == old(freed)
      ensures phase == Open ==> forall k :: old(Position()) < k < Position() ==> !EndsAt(arrived, k)
      ensures phase == Open ==> (lock <==> EndsAt(arrived, Position()) && holds(Position()))
    {
      hide EndsAt;
      hide FeedAll;
      hide Joined;
      hide Waiting;
      hide PREFACE;
      hide Reset;
      hide Decided;
      hide CallsIn;
      hide MarksFrom;
      var size := bufferOffset - readOffset;
      var processed, status := ParseNext();
      if phase != Open { return false; }
      if status == Complete && holds(released + readOffset) { Acquire(); }
      if parser.saved.state == StartReq { Restart(); }
      if readOffset == bufferOffset { return false; }
      return processed != 0 && processed != size;
    }

    /** Reads messages until the connection is locked or all that is buffered has been read. */
    method Drain()
      requires Buffered() && Decided() && Fed() && Homed() && phase == Open && !detect && buffer != null
      requires readOffset < bufferOffset
      requires lock ==> parser.saved.state == StartReq
      requires Minded()
      modifies this, parser
      ensures Valid() && arrived == old(arrived) && phase != Dangling && freed == old(freed)
      ensures CallsIn(parser.calls, old(parser.calls), old(released), |arrived|)
      ensures old(lock) ==> lock && phase == Open && parser.calls == old(parser.calls) && Position() == old(Position())
      ensures !old(lock) && lock ==> phase == Open && Position() > old(Position())
      ensures buffer != null ==>
                buffer == old(buffer) && bufferOffset == old(bufferOffset) && bufferSize == old(bufferSize)
    {
      hide Fed;
      hide Buffered;
      hide Decided;
      hide Homed;
      hide CallsIn;
      hide Obeys;
      hide EndsAt;
      CallsNone(parser.calls, released, |arrived|);
      while true
        invariant Buffered() && Decided() && Fed() && Homed() && phase == Open && !detect
        invariant buffer == old(buffer) && buffer != null && readOffset < bufferOffset
        invariant bufferOffset == old(bufferOffset) && bufferSize == old(bufferSize) && released == old(released)
        invariant lock ==> parser.saved.state == StartReq && (old(lock) || Position() > old(Position()))
        invariant old(lock) ==> lock && parser.calls == old(parser.calls) && Position() == old(Position())
        invariant arrived == old(arrived) && CallsIn(parser.calls, old(parser.calls), released, |arrived|)
        invariant freed == old(freed) <= Position() && Obeys(holds, arrived, freed, Position(), lock)
        decreases bufferOffset - readOffset
      {
        if lock { break; }
        ghost var calls, floor, at := parser.calls, released, Position();
        var more := ReadMessage();
        if phase == Open { ObeysNext(holds, arrived, freed, at, Position(), lock); }
        CallsJoin(old(parser.calls), calls, parser.calls, floor, |arrived|);
        if !more { break; }
      }
    }

    /** An arrival is stored behind what is buffered. */
    method Store(data: seq<byte>)
      requires Buffered() && Fed() && phase == Open && (buffer != null || data != [])
      modifies this`buffer, this`bufferSize, this`bufferOffset, this`block, this`arrived, this`cuts, buffer
      ensures Buffered() && Fed() && buffer != null && arrived == old(arrived) + data
      ensures bufferOffset == old(bufferOffset) + |data| && bufferSize == old(Room(|data|))
      ensures block == old(block) <==> old(buffer != null && !Replaces(|data|))
      ensures cuts == if data == [] then old(cuts) else old(cuts) + [old(|arrived|)]
      ensures buffer == old(buffer) || fresh(buffer)
    {
      hide FeedAll;
      hide Joined;
      Reserve(|data|);
      FedPrefix(arrived, data, Position());
      ghost var before := arrived;
      if |data| > 0 { Append(data); }
      assert arrived == before + data;
    }

    /** A connection that may yet open with the preface: it does, it does not, or it has to wait. */
    method Detect()
      requires Buffered() && Fed() && phase == Open && http2 && detect && !lock && buffer != null && Position() == 0
      modifies this`detect, this`phase
      ensures Buffered() && Decided() && Fed() && (phase == Open || phase == Http2)
    {
      hide FeedAll;
      hide Joined;
      hide Waiting;
      hide PREFACE;
      var size := if bufferOffset < |PREFACE| then bufferOffset else |PREFACE|;
      assert buffer[..bufferOffset] == arrived;
      DecisionTaken(arrived);
      if buffer[..size] != PREFACE[..size] {
        detect := false;
      } else if bufferOffset >= |PREFACE| {
        detect := false;
        phase := Http2;
        FedNothing(OPENED);
      }
    }

    /** The parser is about to go on with a mark that points into a buffer which is no longer there. */
    predicate Stale()
      reads this, parser
    {
      HasMark(parser.saved) && marksIn != block
    }

    /** In an open connection a mark is set exactly when the bytes read end inside what it marks. */
    lemma MarksSet()
      requires Fed() && Homed() && phase == Open
      ensures HasMark(parser.saved) <==> EndsInside(arrived[..Position()])
      ensures HasMark(parser.saved) ==> buffer != null && parser.saved.state != StartReq && Position() > 0
    {
      hide FeedAll;
      hide Joined;
      MarkedInside(arrived[..Position()]);
      NothingInside();
      if Position() == 0 { assert arrived[..0] == []; }
    }

    /** Reads what is buffered, unless the parser would start from a mark that dangles. */
    method Proceed()
      requires Buffered() && Decided() && Fed() && phase == Open && !detect && buffer != null
      requires MarksFrom(parser.saved, released) && (Stale() ==> Position() in cuts && !lock)
      requires readOffset < bufferOffset
      requires lock ==> parser.saved.state == StartReq
      requires Minded()
      modifies this, parser
      ensures Valid() && arrived == old(arrived) && freed == old(freed) && (phase == Dangling <==> old(Stale()))
      ensures CallsIn(parser.calls, old(parser.calls), old(released), |arrived|)
      ensures old(lock) ==> lock && phase == Open && parser.calls == old(parser.calls) && Position() == old(Position())
      ensures !old(lock) && lock ==> phase == Open && Position() > old(Position())
      ensures buffer != null ==>
                buffer == old(buffer) && bufferOffset == old(bufferOffset) && bufferSize == old(bufferSize)
    {
      hide FeedAll;
      hide Joined;
      hide Waiting;
      hide PREFACE;
      hide CallsIn;
      hide MarksFrom;
      hide HasMark;
      if Stale() {
        CallsNone(parser.calls, released, |arrived|);
        phase := Dangling;
      } else {
        Drain();
      }
    }

    /** Decides between the protocols if that is still to be done, and reads what is buffered. */
    method Continue()
      requires Buffered() && Fed() && phase == Open && buffer != null
      requires if detect then http2 && !lock && Position() == 0 && !Stale() else Decided()
      requires MarksFrom(parser.saved, released) && (Stale() ==> Position() in cuts && !lock)
      requires !detect ==> readOffset < bufferOffset
      requires lock ==> parser.saved.state == StartReq
      requires detect ==> 0 < bufferOffset
      requires Minded()
      modifies this, parser
      ensures Valid() && arrived == old(arrived) && freed == old(freed) && (phase == Dangling <==> old(Stale()))
      ensures CallsIn(parser.calls, old(parser.calls), old(released), |arrived|)
      ensures old(lock) ==> lock && phase == Open && parser.calls == old(parser.calls) && Position() == old(Position())
      ensures !old(lock) && lock ==> phase == Open && Position() > old(Position())
      ensures buffer != null ==>
                buffer == old(buffer) && bufferOffset == old(bufferOffset) && bufferSize == old(bufferSize)
    {
      hide FeedAll;
      hide Joined;
      hide Waiting;
      hide PREFACE;
      hide CallsIn;
      hide MarksFrom;
      hide HasMark;
      if detect {
        Detect();
        CallsNone(parser.calls, released, |arrived|);
        if detect || phase == Http2 { return; }
      }
      Proceed();
    }

    /** Stores an arrival, and says whether the parser would go on from a mark that dangles. */
    method Receive(data: seq<byte>)
      requires Buffered() && Decided() && Fed() && Homed() && phase == Open && (buffer != null || data != [])
      requires lock ==> parser.saved.state == StartReq && (buffer != null ==> readOffset < bufferOffset)
      requires data == [] ==> !detect && readOffset < bufferOffset
      requires data != [] ==> AtRest()
      modifies this`buffer, this`bufferSize, this`bufferOffset, this`block, this`arrived, this`cuts, buffer
      ensures Buffered() && Fed() && buffer != null && arrived == old(arrived) + data
      ensures if detect then http2 && !lock && Position() == 0 && !Stale() && 0 < bufferOffset
              else Decided() && readOffset < bufferOffset
      ensures MarksFrom(parser.saved, released) && (Stale() ==> Position() in cuts && !lock)
      ensures Stale() <==> old(Replaces(|data|) && EndsInside(arrived[..Position()]))
      ensures bufferSize == old(Room(|data|)) && bufferOffset == old(bufferOffset) + |data|
      ensures buffer == old(buffer) || fresh(buffer)
    {
      hide Fed;
      hide FeedAll;
      hide Waiting;
      hide PREFACE;
      hide EndsInside;
      hide MarksFrom;
      hide HasMark;
      hide Joined;
      MarksSet();
      if http2 && !detect { DecisionStays(arrived, data); }
      Store(data);
    }

    /** What the server does with an arrival, and with nothing at all when a message is released. */
    method Handle(data: seq<byte>)
      requires Buffered() && Decided() && Fed() && Homed() && phase == Open
      requires lock ==> parser.saved.state == StartReq && (buffer != null ==> readOffset < bufferOffset)
      requires data == [] ==> !detect && (buffer != null ==> readOffset < bufferOffset)
      requires data != [] ==> AtRest()
      requires Minded()
      modifies this, parser, buffer
      ensures Valid() && arrived == old(arrived) + data && freed == old(freed)
      ensures buffer == null || buffer == old(buffer) || fresh(buffer)
      ensures phase == Dangling <==> old(Replaces(|data|) && EndsInside(arrived[..Position()]))
      ensures CallsIn(parser.calls, old(parser.calls), old(released), |arrived|)
      ensures buffer != null ==> bufferSize == old(Room(|data|)) && bufferOffset == old(bufferOffset) + |data|
      ensures old(lock) ==> lock && phase == Open && parser.calls == old(parser.calls) && Position() == old(Position())
      ensures !old(lock) && lock ==> phase == Open && Position() > old(Position())
    {
      hide Fed;
      hide FeedAll;
      hide Waiting;
      hide PREFACE;
      hide EndsInside;
      hide CallsIn;
      hide MarksFrom;
      hide HasMark;
      hide Joined;
      CallsNone(parser.calls, released, |arrived + data|);
      if |data| == 0 && buffer == null { return; }
      ObeysMore(holds, arrived, data, freed, Position(), lock);
      Receive(data);
      Continue();
    }

    /**
     * An arrival. It makes the parser go on with a dangling pointer exactly when it does not find room in the
     * buffer and the bytes read so far end inside a target, a field name or a value. All that is handed over lies
     * in the buffer at hand.
     */
    method OnData(data: seq<byte>)
      requires Valid() && phase == Open && data != []
      modifies this, parser, buffer
      ensures Valid() && arrived == old(arrived) + data && freed == old(freed)
      ensures buffer == null || buffer == old(buffer) || fresh(buffer)
      ensures phase == Dangling <==> old(Replaces(|data|) && EndsInside(arrived[..Position()]))
      ensures CallsIn(parser.calls, old(parser.calls), old(released), |arrived|)
      ensures buffer != null ==> bufferSize == old(Room(|data|)) && bufferOffset == old(bufferOffset) + |data|
      ensures old(lock) ==> lock && phase == Open && parser.calls == old(parser.calls) && Position() == old(Position())
      ensures !old(lock) && lock ==> phase == Open && Position() > old(Position())
    {
      Handle(data);
    }

    /**
     * The handler is through with the message: the lock goes, and what is buffered behind it is read, up to
     * where a handler takes the lock again behind a further message, or to its end. Without a lock there is
     * nothing to do.
     */
    method Release()
      requires Valid() && phase == Open
      modifies this, parser, buffer
      ensures Valid() && arrived == old(arrived) && phase != Dangling
      ensures freed == if old(lock) then old(Position()) else old(freed)
      ensures phase == Open ==> !lock || Position() > old(Position())
      ensures phase == Open ==> (lock && parser.saved.state == StartReq) || detect || Position() == |arrived|
      ensures !old(lock) ==>
                !lock && phase == Open && parser.calls == old(parser.calls) && Position() == old(Position())
      ensures CallsIn(parser.calls, old(parser.calls), old(released), |arrived|)
      ensures buffer == null || buffer == old(buffer) || fresh(buffer)
    {
      hide FeedAll;
      hide Joined;
      hide Waiting;
      hide PREFACE;
      hide EndsInside;
      hide CallsIn;
      CallsNone(parser.calls, released, |arrived|);
      ObeysNothing(holds, arrived, Position());
      var locked := lock;
      if locked { freed := Position(); }
      lock := false;
      if locked { Handle([]); }
    }
  }

  /**
   * How a stream was cut into arrivals and when handlers held the connection does not show, as long as no
   * buffer was replaced under a mark: two connections that got the same bytes, and are not held up now, have the
   * same parser and made the same calls, or stopped for the same reason, at the same byte and behind the same
   * calls. Of a connection that was handed over these are the calls up to the handover.
   */
  lemma CuttingDoesNotMatter(c: Connection, d: Connection)
    requires c.Valid() && d.Valid() && c.http2 == d.http2 && c.arrived == d.arrived
    requires c.phase != Dangling && d.phase != Dangling
    requires !c.lock && !d.lock
    ensures c.phase == d.phase && c.detect == d.detect
    ensures Joined(c.parser.calls) == Joined(d.parser.calls)
    ensures c.phase == Open ==> c.parser.saved == d.parser.saved && c.Position() == d.Position()
    ensures c.phase != Open && c.phase != Http2 ==> c.stopped == d.stopped
  {
    hide FeedAll;
    hide Joined;
    hide Waiting;
    hide PREFACE;
    ReadOrWaiting(c);
    ReadOrWaiting(d);
  }

  /**
   * Nor does it while handlers hold the connection: two connections that got the same bytes, whose handlers hold them
   * behind the same messages, and which were last released at the same byte, are locked at the same byte or both
   * have read everything, with the same parser and the same calls.
   */
  lemma HeldAlike(c: Connection, d: Connection)
    requires c.Valid() && d.Valid() && c.http2 == d.http2 && c.arrived == d.arrived && c.holds == d.holds
    requires c.phase == Open && d.phase == Open && c.freed == d.freed
    ensures c.lock == d.lock && c.Position() == d.Position()
    ensures c.parser.saved == d.parser.saved && Joined(c.parser.calls) == Joined(d.parser.calls)
  {
    hide FeedAll;
    hide Joined;
    hide Waiting;
    hide PREFACE;
    hide EndsAt;
    LockDecided(c.holds, c.arrived, c.freed, c.Position(), c.lock, d.Position(), d.lock);
    LockDecided(c.holds, c.arrived, c.freed, d.Position(), d.lock, c.Position(), c.lock);
  }

  /** An open connection that nobody holds has read all its bytes, or waits with all of them. */
  lemma ReadOrWaiting(c: Connection)
    requires c.Valid() && (c.phase == Open ==> !c.lock)
    ensures c.phase == Open ==> c.Here() == FeedAll(OPENED, if c.detect then [] else c.arrived)
    ensures c.phase != Open && c.phase != Http2 && c.phase != Dangling ==>
              && c.phase == PhaseOf(FeedAll(OPENED, c.arrived).status)
              && FeedAll(OPENED, c.arrived).log == Joined(c.parser.calls) && FeedAll(OPENED, c.arrived).pos == c.stopped
    ensures c.phase == Open && !c.detect ==> PhaseOf(FeedAll(OPENED, c.arrived).status) == Open
  {
    hide FeedAll;
    hide Joined;
    hide Waiting;
    hide PREFACE;
    assert c.arrived[..|c.arrived|] == c.arrived && c.arrived[..0] == [];
  }

  /**
   * Bytes behind a stop change nothing: a connection that stopped on the first bytes of a stream stopped for
   * the same reason, at the same byte and behind the same calls, as one that got more of the stream, as long as
   * no buffer was replaced under a mark.
   */
  lemma StoppedStays(c: Connection, d: Connection)
    requires c.Valid() && d.Valid() && c.http2 == d.http2 && c.arrived <= d.arrived
    requires c.phase != Open && c.phase != Http2 && (d.phase == Open ==> !d.lock)
    requires c.phase != Dangling && d.phase != Dangling
    ensures d.phase == c.phase && Joined(d.parser.calls) == Joined(c.parser.calls) && d.stopped == c.stopped
  {
    hide FeedAll;
    hide Joined;
    hide Waiting;
    hide PREFACE;
    var rest := d.arrived[|c.arrived|..];
    assert d.arrived == c.arrived + rest;
    FeedAllConcat(OPENED, c.arrived, rest);
    ReadOrWaiting(c);
    FeedStopped(FeedAll(OPENED, c.arrived), rest);
    ReadOrWaiting(d);
    if c.http2 { DecisionStays(c.arrived, rest); }
  }

  /** The choice of the protocol rests on as many bytes as the preface has, whatever follows. */
  lemma FirstBytesDecide(c: Connection, d: Connection)
    requires c.Valid() && d.Valid() && c.http2 == d.http2
    requires |c.arrived| >= |PREFACE| && |d.arrived| >= |PREFACE|
    requires c.arrived[..|PREFACE|] == d.arrived[..|PREFACE|]
    ensures (c.phase == Http2) == (d.phase == Http2) && !c.detect && !d.detect
  {
    hide FeedAll;
    hide Joined;
    hide PREFACE;
    if PREFACE <= c.arrived { assert d.arrived[..|PREFACE|] == PREFACE; }
    if PREFACE <= d.arrived { assert c.arrived[..|PREFACE|] == PREFACE; }
  }
}
