/**
 * Whole requests through the HTTP/1.1 parser: what was written on the wire is what the handlers are
 * told, and nothing of what follows is touched. One request after the other makes a connection.
 */
module HttpRequest {
  import opened Common
  import opened HttpTypes
  import opened HttpStep
  import opened HttpRun
  import opened HttpHeaderLines
  import HttpLengths
  import HttpChunks

  // ---- The end of the headers, and the body -----------------------------------------------------

  /** A call that came to the end of a message, with n bytes consumed. */
  predicate Ended(c: Call, n: nat, log: seq<Event>) {
    c.status == Complete && c.consumed == n && c.log == log && c.p.state == StartReq
  }

  lemma EndedLater(p: Parser, log: seq<Event>, a: seq<byte>, base: nat, q: Parser, next: seq<Event>, b: seq<byte>, n: nat,
                   last: seq<Event>)
    requires Takes(p, log, a, base, q, next) && Ended(Process(q, next, b, base + |a|), n, last)
    ensures Ended(Process(p, log, a + b, base), |a| + n, last)
  {
    hide Process;
    hide Takes;
    TakenFirst(p, log, a, base, q, next, b);
  }

  /** The parser of a request at the empty line behind its headers, before the line feed. */
  predicate HeadersOver(p: Parser) {
    && p.state == HeadersAlmostDone && p.kind == Request && p.verb != CONNECT && !p.upgrade
    && !p.flags.trailing && !p.flags.upgrade && p.fieldMark == None && p.valueMark == None
  }

  /** What the handler sees when the headers are over. */
  function SeenHeaders(p: Parser, size: nat): Snapshot {
    Seen(p.(savedLength := size))
  }

  lemma NoBodyStep(p: Parser, pos: nat)
    requires HeadersOver(p) && !p.flags.chunked && (p.contentLength == -1 || p.contentLength == 0)
    ensures var s, seen := StepByte(p, LF, pos), SeenHeaders(p, 0);
            && s.status == Complete && s.p.state == StartReq && s.events == [HeadersComplete(seen)] + [MessageComplete(seen)]
  {
  }

  lemma EmitPair(log: seq<Event>, d: Event, e: Event)
    requires !d.Body? && !e.Body?
    ensures EmitAll(log, [d] + [e]) == log + [d, e]
  {
    EmitTwo(log, d, e);
    assert [d] + [e] == [d, e];
    assert log + [d] + [e] == log + [d, e];
  }

  /** The line feed of the empty line ends a request without a body. */
  lemma NoBodyEnds(p: Parser, log: seq<Event>, rest: seq<byte>, base: nat)
    requires HeadersOver(p) && !p.flags.chunked && (p.contentLength == -1 || p.contentLength == 0)
    ensures var seen := SeenHeaders(p, 0);
            Ended(Process(p, log, [LF] + rest, base), 1, log + [HeadersComplete(seen), MessageComplete(seen)])
  {
    hide StepByte;
    hide Process;
    hide EmitAll;
    hide SeenHeaders;
    var seen := SeenHeaders(p, 0);
    NoBodyStep(p, base);
    ProcessStep(p, log, [LF] + rest, base);
    EmitPair(log, HeadersComplete(seen), MessageComplete(seen));
  }

  /** The calls behind the header lines of a body of announced length, which starts at base. */
  function SizedCalls(seen: Snapshot, size: nat, base: nat): seq<Event> {
    [HeadersComplete(seen)] + (if size == 0 then [] else [Body(base, base + size)]) + [MessageComplete(seen)]
  }

  lemma SizedFacts(p: Parser)
    requires HeadersOver(p) && !p.flags.chunked && p.contentLength > 0
    ensures HttpLengths.AnnouncesBody(p)
    ensures Seen(HttpLengths.Opened(p)) == SeenHeaders(p, p.contentLength)
    ensures Seen(HttpLengths.Opened(p).(contentLength := 0)) == SeenHeaders(p, p.contentLength)
    ensures HttpLengths.Opened(p).kind == p.kind
  {
  }

  /** The line feed of the empty line, and as many bytes as were announced. */
  lemma SizedEnds(p: Parser, log: seq<Event>, body: seq<byte>, rest: seq<byte>, base: nat)
    requires HeadersOver(p) && !p.flags.chunked && p.contentLength == |body|
    ensures Ended(Process(p, log, [LF] + body + rest, base), 1 + |body|,
                  log + SizedCalls(SeenHeaders(p, |body|), |body|, base + 1))
  {
    hide Process;
    hide SeenHeaders;
    var seen := SeenHeaders(p, |body|);
    if body == [] {
      assert [LF] + body + rest == [LF] + rest;
      NoBodyEnds(p, log, rest, base);
      assert SizedCalls(seen, |body|, base + 1) == [HeadersComplete(seen), MessageComplete(seen)];
    } else {
      hide Seen;
      SizedFacts(p);
      HttpLengths.AnnouncedBody(p, log, body, rest, base);
      assert SizedCalls(seen, |body|, base + 1) ==
             [HeadersComplete(seen), Body(base + 1, base + 1 + |body|), MessageComplete(seen)];
    }
  }

  /** The parser in front of the first chunk. A length that was announced as well is shown, and means nothing. */
  function AtFirstChunk(p: Parser): Parser {
    p.(state := ChunkSizeStart, savedLength := if p.contentLength > 0 then p.contentLength else 0)
  }

  lemma ChunksOpenStep(p: Parser, pos: nat)
    requires HeadersOver(p) && p.flags.chunked
    ensures StepByte(p, LF, pos) == Step(AtFirstChunk(p), [HeadersComplete(Seen(AtFirstChunk(p)))], Reading)
  {
  }

  lemma FirstChunkState(p: Parser)
    requires HeadersOver(p)
    ensures var q := AtFirstChunk(p);
            q.state == ChunkSizeStart && q.kind == Request && q.fieldMark == None && q.valueMark == None
    ensures StartState(Request) == StartReq
  {
  }

  /** The line feed of the empty line, and the chunks and their trailers. */
  lemma ChunksEnd(p: Parser, log: seq<Event>, c: HttpChunks.Coding, rest: seq<byte>, base: nat)
    requires HeadersOver(p) && p.flags.chunked && HttpChunks.CodingOk(c)
    ensures Ended(Process(p, log, [LF] + (HttpChunks.Wire(c) + rest), base), 1 + |HttpChunks.Wire(c)|,
                  log + [HeadersComplete(Seen(AtFirstChunk(p)))] + HttpChunks.ChunkedCalls(AtFirstChunk(p), c, base + 1))
  {
    hide *;
    var headers, q, wire := HeadersComplete(Seen(AtFirstChunk(p))), AtFirstChunk(p), HttpChunks.Wire(c);
    ChunksOpenStep(p, base);
    TakesOne(p, log, LF, base);
    EmitQuiet(log, headers);
    FirstChunkState(p);
    var r := HttpChunks.ChunkedBody(q, log + [headers], c, rest, base + 1);
    EndedIs(Process(q, log + [headers], wire + rest, base + 1));
    EndedLater(p, log, [LF], base, q, log + [headers], wire + rest, |wire|,
               log + [headers] + HttpChunks.ChunkedCalls(q, c, base + 1));
  }

  // ---- Requests that hand the connection over ---------------------------------------------------

  /** At the empty line behind the headers, a request for a tunnel or for another protocol. */
  predicate Leaving(p: Parser) {
    !p.flags.trailing && (p.verb == CONNECT || p.flags.upgrade || p.upgrade)
  }

  /** What the handler sees of such a request in its last two calls. */
  function SeenLeaving(p: Parser): Snapshot {
    SeenHeaders(p, if p.contentLength > 0 then p.contentLength else 0)
  }

  lemma LeavingStep(p: Parser, b: byte, pos: nat)
    requires p.state == HeadersAlmostDone && Leaving(p)
    ensures var s, seen := StepByte(p, b, pos), SeenLeaving(p);
            s.status == Switched && s.events == [HeadersComplete(seen)] + [MessageComplete(seen)]
  {
  }

  /** The empty line of such a request is the end of it, whatever its headers say of a body. */
  lemma LeavingEnds(p: Parser, log: seq<Event>, rest: seq<byte>, base: nat)
    requires p.state == HeadersAlmostDone && Leaving(p)
    ensures var c, seen := Process(p, log, [LF] + rest, base), SeenLeaving(p);
            && c.status == Switched && c.consumed == 1
            && c.log == log + [HeadersComplete(seen), MessageComplete(seen)]
  {
    hide StepByte;
    hide Process;
    hide EmitAll;
    hide SeenLeaving;
    var seen := SeenLeaving(p);
    LeavingStep(p, LF, base);
    ProcessStep(p, log, [LF] + rest, base);
    EmitPair(log, HeadersComplete(seen), MessageComplete(seen));
  }

  /** The byte at which the headers or the trailers of a message are over. */
  predicate LastOfHeaders(p: Parser, b: byte) {
    p.state == HeadersAlmostDone || (b == LF && (p.state == HeaderFieldStart || p.state == HeaderValueLws))
  }

  lemma StepsOn(p: Parser, b: byte, pos: nat)
    ensures GroupOf(p.state) == Starting ==> StepStart(p, b).status != Switched
    ensures GroupOf(p.state) == StatusLine ==> StepStatusLine(p, b).status != Switched
    ensures GroupOf(p.state) == Bodies ==> StepBody(p, pos).status != Switched
    ensures GroupOf(p.state) == Chunks ==> StepChunk(p, b, pos).status != Switched
  {
    hide MethodName;
    hide CharAt;
    hide Seen;
    hide Unhex;
  }

  lemma StepsOnLine(p: Parser, b: byte, pos: nat)
    ensures GroupOf(p.state) == Target ==> StepUrl(p, b, pos).status != Switched
    ensures GroupOf(p.state) == Version ==> StepVersion(p, b).status != Switched
  {
    hide Seen;
  }

  lemma StepsOnHeaders(p: Parser, b: byte, pos: nat)
    requires GroupOf(p.state) == Headers && !LastOfHeaders(p, b)
    ensures StepHeader(p, b, pos).status != Switched
  {
    hide Seen;
    hide MatchName;
    hide NextHeader;
    hide NextValue;
    hide Token;
  }

  lemma HeadersOverStep(p: Parser, b: byte, pos: nat)
    requires LastOfHeaders(p, b)
    ensures StepByte(p, b, pos).status == Switched <==> Leaving(p)
  {
    hide Seen;
    hide ShouldKeepAlive;
  }

  /** A connection is handed over at the end of the headers of such a message, and nowhere else. */
  lemma SwitchedExactly(p: Parser, b: byte, pos: nat)
    ensures StepByte(p, b, pos).status == Switched <==> LastOfHeaders(p, b) && Leaving(p)
  {
    hide LastOfHeaders;
    hide Leaving;
    StepsOn(p, b, pos);
    StepsOnLine(p, b, pos);
    if LastOfHeaders(p, b) {
      HeadersOverStep(p, b, pos);
    } else if GroupOf(p.state) == Headers {
      StepsOnHeaders(p, b, pos);
    }
    hide StepStart;
    hide StepStatusLine;
    hide StepUrl;
    hide StepVersion;
    hide StepHeader;
    hide StepBody;
    hide StepChunk;
  }

  lemma EndedIs(c: Call)
    requires c.status == Complete && c.p.state == StartReq
    ensures Ended(c, c.consumed, c.log)
  {
  }
}
