/**
 * Whole runs of the HTTP/1.1 parser: one call over the bytes that are at hand, with bodies taken in
 * bulk, and the stream of a connection one byte at a time. The two are the same up to the way a body
 * is cut into pieces, so the cutting of the stream into calls does not matter.
 */
module HttpRun {
  import opened Common
  import opened HttpTypes
  import opened HttpStep
  import opened HttpInvariant

  // ---- The calls to the handlers, with the pieces of a body joined ------------------------------

  function Emit(log: seq<Event>, e: Event): seq<Event> {
    if log != [] && log[|log| - 1].Body? && e.Body? && log[|log| - 1].to == e.from
    then log[..|log| - 1] + [Body(log[|log| - 1].from, e.to)]
    else log + [e]
  }

  function EmitAll(log: seq<Event>, es: seq<Event>): seq<Event>
    decreases |es|
  {
    if es == [] then log else EmitAll(Emit(log, es[0]), es[1..])
  }

  function Joined(calls: seq<Event>): seq<Event> {
    EmitAll([], calls)
  }

  lemma {:induction false} EmitAllConcat(log: seq<Event>, a: seq<Event>, b: seq<Event>)
    ensures EmitAll(log, a + b) == EmitAll(EmitAll(log, a), b)
    decreases |a|
  {
    if a == [] {
      assert a + b == b;
    } else {
      assert (a + b)[1..] == a[1..] + b;
      EmitAllConcat(Emit(log, a[0]), a[1..], b);
    }
  }

  lemma EmitNone(log: seq<Event>)
    ensures EmitAll(log, []) == log
  {
  }

  lemma EmitOne(log: seq<Event>, e: Event)
    ensures EmitAll(log, [e]) == Emit(log, e)
  {
    assert [e][1..] == [];
  }

  lemma EmitTwo(log: seq<Event>, d: Event, e: Event)
    ensures EmitAll(log, [d, e]) == Emit(Emit(log, d), e)
  {
    assert [d, e][1..] == [e];
    EmitOne(Emit(log, d), e);
  }

  lemma EmitQuiet(log: seq<Event>, e: Event)
    requires !e.Body?
    ensures EmitAll(log, [e]) == log + [e]
  {
    EmitOne(log, e);
  }

  /** Two adjacent pieces of a body are one. */
  lemma EmitMerge(log: seq<Event>, from: nat, middle: nat, to: nat)
    ensures Emit(Emit(log, Body(from, middle)), Body(middle, to)) == Emit(log, Body(from, to))
  {
  }

  // ---- One call ---------------------------------------------------------------------------------

  /** The parser and the calls made, how many bytes were taken, and why no more were. */
  datatype Call = Call(p: Parser, log: seq<Event>, consumed: nat, status: Status)

  function Process(p: Parser, log: seq<Event>, data: seq<byte>, base: nat): (c: Call)
    ensures c.consumed <= |data|
    ensures c.status == Reading ==> c.consumed == |data|
    ensures data != [] ==> c.consumed > 0
    decreases |data|
  {
    if data == [] then Call(p, log, 0, Reading)
    else
      var s := StepByte(p, data[0], base);
      var next := EmitAll(log, s.events);
      if s.status != Reading then Call(s.p, next, 1, s.status)
      else Later(1, Process(s.p, next, data[1..], base + 1))
  }

  function Later(n: nat, c: Call): Call {
    c.(consumed := n + c.consumed)
  }

  /** A body that ends with the stream is over at the end of the call. */
  function EndOfCall(c: Call): Call {
    if c.status == Reading && c.p.state == BodyIdentityEof
    then Call(c.p.(state := StartState(c.p.kind)), Emit(c.log, MessageComplete(Seen(c.p))), c.consumed, Complete)
    else c
  }

  lemma LaterIs(n: nat, c: Call)
    ensures Later(n, c) == Call(c.p, c.log, n + c.consumed, c.status)
  {
  }

  lemma ProcessNone(p: Parser, log: seq<Event>, base: nat)
    ensures Process(p, log, [], base) == Call(p, log, 0, Reading)
  {
  }

  lemma ProcessStep(p: Parser, log: seq<Event>, data: seq<byte>, base: nat)
    requires data != []
    ensures var s := StepByte(p, data[0], base);
            Process(p, log, data, base) ==
            if s.status != Reading then Call(s.p, EmitAll(log, s.events), 1, s.status)
            else Later(1, Process(s.p, EmitAll(log, s.events), data[1..], base + 1))
  {
  }

  /** A call over more data is a call over the first of it, and then over the rest if it goes on. */
  lemma {:induction false} ProcessConcat(p: Parser, log: seq<Event>, a: seq<byte>, b: seq<byte>, base: nat)
    ensures var c := Process(p, log, a, base);
            Process(p, log, a + b, base) ==
            if c.status == Reading then Later(|a|, Process(c.p, c.log, b, base + |a|)) else c
    decreases |a|
  {
    hide StepByte;
    hide EmitAll;
    if a == [] {
      assert a + b == b;
    } else {
      ProcessStep(p, log, a, base);
      ProcessStep(p, log, a + b, base);
      assert (a + b)[0] == a[0] && (a + b)[1..] == a[1..] + b;
      var s := StepByte(p, a[0], base);
      if s.status == Reading { ProcessConcat(s.p, EmitAll(log, s.events), a[1..], b, base + 1); }
    }
  }

  /** The parser takes all of the bytes a, from p to q and from log to next. */
  ghost predicate Takes(p: Parser, log: seq<Event>, a: seq<byte>, base: nat, q: Parser, next: seq<Event>) {
    Process(p, log, a, base) == Call(q, next, |a|, Reading)
  }

  lemma TakesNone(p: Parser, log: seq<Event>, base: nat)
    ensures Takes(p, log, [], base, p, log)
  {
  }

  lemma TakesOne(p: Parser, log: seq<Event>, b: byte, base: nat)
    requires StepByte(p, b, base).status == Reading
    ensures Takes(p, log, [b], base, StepByte(p, b, base).p, EmitAll(log, StepByte(p, b, base).events))
  {
    hide StepByte;
    hide EmitAll;
    ProcessStep(p, log, [b], base);
    assert [b][1..] == [];
  }

  lemma TakesBoth(p: Parser, log: seq<Event>, a: seq<byte>, base: nat, q: Parser, next: seq<Event>, b: seq<byte>,
                  r: Parser, last: seq<Event>)
    requires Takes(p, log, a, base, q, next) && Takes(q, next, b, base + |a|, r, last)
    ensures Takes(p, log, a + b, base, r, last)
  {
    hide Process;
    ProcessConcat(p, log, a, b, base);
  }

  lemma TakenFirst(p: Parser, log: seq<Event>, a: seq<byte>, base: nat, q: Parser, next: seq<Event>, b: seq<byte>)
    requires Takes(p, log, a, base, q, next)
    ensures Process(p, log, a + b, base) == Later(|a|, Process(q, next, b, base + |a|))
  {
    hide Process;
    ProcessConcat(p, log, a, b, base);
  }

  lemma SeenAnywhere(p: Parser, q: Parser)
    requires q.major == p.major && q.minor == p.minor && q.verb == p.verb && q.statusCode == p.statusCode
    requires q.flags == p.flags && q.savedLength == p.savedLength
    ensures Seen(q) == Seen(p)
  {
  }

  lemma StepTaken(p: Parser, log: seq<Event>, b: byte, data: seq<byte>, base: nat, q: Parser)
    requires StepByte(p, b, base) == Go(q)
    ensures Process(p, log, [b] + data, base) == Later(1, Process(q, log, data, base + 1))
  {
    hide StepByte;
    ProcessStep(p, log, [b] + data, base);
    EmitNone(log);
    assert ([b] + data)[1..] == data;
  }

  lemma TakesSame(p: Parser, q: Parser, log: seq<Event>, a: seq<byte>, b: seq<byte>, base: nat, r: Parser, next: seq<Event>)
    requires |a| == |b| + 1 && Process(p, log, a, base) == Later(1, Process(q, log, b, base + 1))
    ensures Takes(p, log, a, base, r, next) <==> Takes(q, log, b, base + 1, r, next)
  {
    hide Process;
  }

  lemma FailsFirst(p: Parser, log: seq<Event>, data: seq<byte>, base: nat)
    requires data != [] && StepByte(p, data[0], base).status == Failed
    ensures Process(p, log, data, base).status == Failed
    ensures forall q, next :: !Takes(p, log, data, base, q, next)
  {
    hide StepByte;
    ProcessStep(p, log, data, base);
  }

  lemma GoIs(p: Parser)
    ensures Go(p) == Step(p, [], Reading)
  {
  }

  lemma {:induction false} ProcessSound(p: Parser, log: seq<Event>, data: seq<byte>, base: nat)
    requires Sound(p, base)
    ensures var c := Process(p, log, data, base);
            && (c.status == Reading || c.status == Complete ==> Sound(c.p, base + c.consumed))
            && (c.status == Complete ==> c.p.state == StartState(c.p.kind))
    decreases |data|
  {
    hide StepByte;
    hide Sound;
    hide Emit;
    if data != [] {
      StepKeeps(p, data[0], base);
      var s := StepByte(p, data[0], base);
      if s.status == Reading { ProcessSound(s.p, EmitAll(log, s.events), data[1..], base + 1); }
    }
  }

  // ---- Bodies in bulk ---------------------------------------------------------------------------

  lemma IdentityStep(p: Parser, b: byte, base: nat)
    requires p.state == BodyIdentity
    ensures StepByte(p, b, base) == StepBody(p, base)
  {
  }

  lemma ChunkDataStep(p: Parser, b: byte, base: nat)
    requires p.state == ChunkData
    ensures StepByte(p, b, base) == StepChunk(p, b, base)
  {
  }

  lemma EofStep(p: Parser, b: byte, base: nat)
    requires p.state == BodyIdentityEof
    ensures StepByte(p, b, base) == Step(p, [Body(base, base + 1)], Reading)
  {
  }

  /** The parser with n fewer bytes of body to come. */
  function Less(p: Parser, n: nat): Parser {
    p.(contentLength := p.contentLength - n)
  }

  /** Taking n bytes of a body of announced length at once is taking them one by one. */
  lemma {:induction false} BulkIdentity(p: Parser, log: seq<Event>, data: seq<byte>, base: nat, n: nat)
    requires p.state == BodyIdentity && 1 <= n <= |data| && n <= p.contentLength
    ensures var q, next := Less(p, n), Emit(log, Body(base, base + n));
            Process(p, log, data, base) ==
            if n == p.contentLength
            then Call(q.(state := StartState(q.kind)), Emit(next, MessageComplete(Seen(q))), n, Complete)
            else Later(n, Process(q, next, data[n..], base + n))
    decreases n
  {
    hide StepByte;
    hide StepBody;
    hide Emit;
    hide EmitAll;
    hide Seen;
    hide StartState;
    ProcessStep(p, log, data, base);
    IdentityOne(p, log, data[0], base);
    if n > 1 {
      EmitMerge(log, base, base + 1, base + n);
      BulkIdentity(Less(p, 1), Emit(log, Body(base, base + 1)), data[1..], base + 1, n - 1);
      assert data[1..][n - 1..] == data[n..];
    }
  }

  /** One byte of such a body, with its calls. */
  lemma IdentityOne(p: Parser, log: seq<Event>, b: byte, base: nat)
    requires p.state == BodyIdentity
    ensures var s, q, next := StepByte(p, b, base), Less(p, 1), Emit(log, Body(base, base + 1));
            if p.contentLength == 1
            then s.p == q.(state := StartState(q.kind)) && s.status == Complete
                 && EmitAll(log, s.events) == Emit(next, MessageComplete(Seen(q)))
            else s.p == q && s.status == Reading && EmitAll(log, s.events) == next
  {
    IdentityStep(p, b, base);
    hide StepByte;
    hide Seen;
    EmitOne(log, Body(base, base + 1));
    EmitTwo(log, Body(base, base + 1), MessageComplete(Seen(Less(p, 1))));
    assert [Body(base, base + 1)] + [MessageComplete(Seen(Less(p, 1)))]
        == [Body(base, base + 1), MessageComplete(Seen(Less(p, 1)))];
  }

  /** The same for the data of a chunk. */
  lemma {:induction false} BulkChunk(p: Parser, log: seq<Event>, data: seq<byte>, base: nat, n: nat)
    requires p.state == ChunkData && 1 <= n <= |data| && n <= p.contentLength
    ensures var q := Less(p, n).(state := if n == p.contentLength then ChunkDataAlmostDone else ChunkData);
            Process(p, log, data, base) == Later(n, Process(q, Emit(log, Body(base, base + n)), data[n..], base + n))
    decreases n
  {
    hide StepByte;
    hide Emit;
    ChunkDataStep(p, data[0], base);
    ProcessStep(p, log, data, base);
    EmitOne(log, Body(base, base + 1));
    if n > 1 {
      EmitMerge(log, base, base + 1, base + n);
      BulkChunk(Less(p, 1), Emit(log, Body(base, base + 1)), data[1..], base + 1, n - 1);
      assert data[1..][n - 1..] == data[n..];
    }
  }

  /** The same for a body that ends with the stream: all that is at hand is taken. */
  lemma {:induction false} BulkEof(p: Parser, log: seq<Event>, data: seq<byte>, base: nat)
    requires p.state == BodyIdentityEof && data != []
    ensures Process(p, log, data, base) == Call(p, Emit(log, Body(base, base + |data|)), |data|, Reading)
    decreases |data|
  {
    hide StepByte;
    hide Emit;
    EofStep(p, data[0], base);
    ProcessStep(p, log, data, base);
    EmitOne(log, Body(base, base + 1));
    if |data| > 1 {
      EmitMerge(log, base, base + 1, base + |data|);
      BulkEof(p, Emit(log, Body(base, base + 1)), data[1..], base + 1);
    }
  }

  // ---- A connection, byte by byte ---------------------------------------------------------------

  /** A connection: its parser, the calls made, the bytes read, and Reading while it goes on. */
  datatype Stream = Stream(p: Parser, log: seq<Event>, pos: nat, status: Status)

  const OPENED := Stream(FRESH, [], 0, Reading)

  function Feed(c: Stream, b: byte): Stream {
    if c.status != Reading then c
    else
      var s := StepByte(c.p, b, c.pos);
      var log := EmitAll(c.log, s.events);
      if s.status == Complete then Stream(Reset(s.p), log, c.pos + 1, Reading)
      else Stream(s.p, log, c.pos + 1, s.status)
  }

  function FeedAll(c: Stream, data: seq<byte>): Stream
    decreases |data|
  {
    if data == [] then c else FeedAll(Feed(c, data[0]), data[1..])
  }

  /** Feeding bytes in two goes is feeding them in one. */
  lemma {:induction false} FeedAllConcat(c: Stream, a: seq<byte>, b: seq<byte>)
    ensures FeedAll(c, a + b) == FeedAll(FeedAll(c, a), b)
    decreases |a|
  {
    hide Feed;
    if a == [] {
      assert a + b == b;
    } else {
      assert (a + b)[1..] == a[1..] + b;
      FeedAllConcat(Feed(c, a[0]), a[1..], b);
    }
  }

  function FeedEach(c: Stream, parts: seq<seq<byte>>): Stream
    decreases |parts|
  {
    if parts == [] then c else FeedEach(FeedAll(c, parts[0]), parts[1..])
  }

  /** However the bytes are cut into parts, the connection comes to the same. */
  lemma {:induction false} PartsDoNotMatter(c: Stream, parts: seq<seq<byte>>)
    ensures FeedEach(c, parts) == FeedAll(c, Concat(parts))
    decreases |parts|
  {
    hide FeedAll;
    if parts == [] {
      FedNothing(c);
    } else {
      FeedAllConcat(c, parts[0], Concat(parts[1..]));
      PartsDoNotMatter(FeedAll(c, parts[0]), parts[1..]);
    }
  }

  lemma FedNothing(c: Stream)
    ensures FeedAll(c, []) == c
  {
  }

  lemma {:induction false} FeedStopped(c: Stream, data: seq<byte>)
    requires c.status != Reading
    ensures FeedAll(c, data) == c
    decreases |data|
  {
    if data != [] { FeedStopped(c, data[1..]); }
  }

  /** The connection after a call of the parser, with the reset that follows a message. */
  function AfterCall(c: Call, base: nat): Stream {
    if c.status == Complete then Stream(Reset(c.p), c.log, base + c.consumed, Reading)
    else Stream(c.p, c.log, base + c.consumed, c.status)
  }

  /** A call takes the connection exactly as far as feeding the bytes it consumed. */
  lemma {:induction false} CallIsFeed(p: Parser, log: seq<Event>, data: seq<byte>, base: nat)
    ensures var c := Process(p, log, data, base);
            FeedAll(Stream(p, log, base, Reading), data[..c.consumed]) == AfterCall(c, base)
    decreases |data|
  {
    hide StepByte;
    hide EmitAll;
    if data != [] {
      ProcessStep(p, log, data, base);
      var c, s := Process(p, log, data, base), StepByte(p, data[0], base);
      assert data[..c.consumed][0] == data[0] && data[..c.consumed][1..] == data[1..][..c.consumed - 1];
      if s.status == Reading {
        CallIsFeed(s.p, EmitAll(log, s.events), data[1..], base + 1);
      }
    }
  }

  /** Between messages the parser of a connection is a fresh one. */
  predicate Rested(p: Parser) {
    p.kind == Request && (p.state == StartReq ==> p == Reset(p))
  }

  /** A step keeps the kind of the message and does not come back to the start before its end. */
  predicate Forward(p: Parser, s: Step) {
    && s.p.kind == p.kind
    && (s.status == Reading && s.p.state == StartReq ==> s.p == p)
  }

  lemma StartForward(p: Parser, b: byte)
    requires GroupOf(p.state) == Starting && p.state != StartReqOrRes && p.state != ResOrRespH
    ensures Forward(p, StepStart(p, b))
  {
    hide NextMethod;
    hide FirstMethod;
    hide IsAlpha;
    hide MethodName;
    hide Seen;
  }

  lemma StatusLineForward(p: Parser, b: byte)
    requires GroupOf(p.state) == StatusLine
    ensures Forward(p, StepStatusLine(p, b))
  {
    hide IsNum;
    hide Seen;
  }

  lemma UrlForward(p: Parser, b: byte, pos: nat)
    requires GroupOf(p.state) == Target
    ensures Forward(p, StepUrl(p, b, pos))
  {
    hide IsNum;
    hide IsAlpha;
    hide IsUrlChar;
    hide IsHostChar;
    hide UrlCall;
    hide Seen;
  }

  lemma VersionForward(p: Parser, b: byte)
    requires GroupOf(p.state) == Version
    ensures Forward(p, StepVersion(p, b))
  {
    hide IsNum;
    hide Seen;
  }

  lemma HeadersDoneForward(p: Parser)
    requires p.state != StartReq
    ensures Forward(p, StepHeadersDone(p))
  {
    hide ShouldKeepAlive;
    hide Seen;
  }

  lemma FieldForward(p: Parser, b: byte, pos: nat)
    requires p.state != StartReq
    ensures Forward(p, StepFieldStart(p, b, pos)) && Forward(p, StepField(p, b, pos))
  {
    hide StepHeadersDone;
    hide Token;
    hide NextHeader;
    hide FirstHeader;
    hide FieldCall;
    HeadersDoneForward(p.(state := HeadersAlmostDone));
  }

  lemma ValueForward(p: Parser, b: byte, pos: nat)
    requires p.state != StartReq
    ensures Forward(p, StepValueStart(p, b, pos)) && Forward(p, StepValue(p, b, pos))
  {
    hide NextValue;
    hide NotedFlags;
    hide IsNum;
    hide Lower;
    hide ValueCall;
    hide Seen;
  }

  lemma HeaderForward(p: Parser, b: byte, pos: nat)
    requires GroupOf(p.state) == Headers
    ensures Forward(p, StepHeader(p, b, pos))
  {
    hide StepHeadersDone;
    hide StepFieldStart;
    hide StepField;
    hide StepValueStart;
    hide StepValue;
    hide NotedFlags;
    HeadersDoneForward(p);
    FieldForward(p, b, pos);
    FieldForward(p.(state := HeaderFieldStart), b, pos);
    ValueForward(p, b, pos);
  }

  lemma BodyForward(p: Parser, b: byte, pos: nat)
    requires GroupOf(p.state) == Bodies || GroupOf(p.state) == Chunks
    ensures Forward(p, if GroupOf(p.state) == Bodies then StepBody(p, pos) else StepChunk(p, b, pos))
  {
    hide Unhex;
    hide Seen;
  }

  lemma StepForward(p: Parser, b: byte, pos: nat)
    requires p.state != StartReqOrRes && p.state != ResOrRespH && p.state != Dead
    ensures Forward(p, StepByte(p, b, pos))
  {
    NotNever(p.state);
    hide StepStart;
    hide StepStatusLine;
    hide StepUrl;
    hide StepVersion;
    hide StepHeader;
    hide StepBody;
    hide StepChunk;
    hide GroupOf;
    match GroupOf(p.state)
    case Starting => StartForward(p, b);
    case StatusLine => StatusLineForward(p, b);
    case Target => UrlForward(p, b, pos);
    case Version => VersionForward(p, b);
    case Headers => HeaderForward(p, b, pos);
    case Bodies => BodyForward(p, b, pos);
    case Chunks => BodyForward(p, b, pos);
    case Never =>
  }

  lemma StepRested(p: Parser, b: byte, pos: nat)
    requires Sound(p, pos) && Rested(p)
    ensures StepByte(p, b, pos).status == Reading ==> Rested(StepByte(p, b, pos).p)
    ensures StepByte(p, b, pos).p.kind == Request
  {
    hide StepByte;
    hide StateOk;
    ReachedState(p);
    StepForward(p, b, pos);
  }

  predicate StreamOk(c: Stream) {
    c.status == Reading ==> Sound(c.p, c.pos) && Rested(c.p)
  }

  lemma FeedOk(c: Stream, b: byte)
    requires StreamOk(c)
    ensures StreamOk(Feed(c, b))
  {
    hide StepByte;
    hide StateOk;
    if c.status == Reading {
      StepKeeps(c.p, b, c.pos);
      StepRested(c.p, b, c.pos);
      var s := StepByte(c.p, b, c.pos);
      if s.status == Complete { ResetSound(s.p, c.pos + 1); }
    }
  }

  lemma {:induction false} FeedAllOk(c: Stream, data: seq<byte>)
    requires StreamOk(c)
    ensures StreamOk(FeedAll(c, data))
    decreases |data|
  {
    hide Feed;
    hide StreamOk;
    if data != [] {
      FeedOk(c, data[0]);
      FeedAllOk(Feed(c, data[0]), data[1..]);
    }
  }
}
