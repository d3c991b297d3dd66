/**
 * Requests as they are written (section 2.1 of RFC 9112), one after the other on a connection: the
 * handlers are told each of them, whole and in order, however the bytes were cut.
 */
module HttpConversation {
  import opened Common
  import opened HttpTypes
  import opened HttpStep
  import opened HttpRun
  import opened HttpRequestLine
  import opened HttpHeaderLines
  import opened HttpHeaderNames
  import opened HttpRequest
  import HttpChunks
  import HttpCuts
  import HttpMarks
  import HttpMethods
  import HttpOddLines
  import HttpStream
  import HttpTargets
  import HttpVersions

  /** What is sent behind the headers. */
  datatype Content = NoContent | Sized(bytes: seq<byte>) | InChunks(coding: HttpChunks.Coding)

  /** A request: its line, its header lines, the empty line behind them, and the content. */
  datatype Message = Message(line: RequestLine, headers: seq<Header>, empty: seq<byte>, content: Content)

  predicate HeadOk(r: Message) {
    RequestLineOk(r.line) && AllHeadersOk(r.headers) && LineEnd(r.empty)
  }

  /** A request for a tunnel or for another protocol, behind which the connection is no longer the parser's. */
  predicate Leaves(r: Message) {
    r.line.verb == CONNECT || SomeUpgrade(r.headers)
  }

  /** What the headers of a request mean together. */
  function Said(r: Message): Meaning {
    EffectAll(r.headers, Meaning(NO_FLAGS, -1))
  }

  /** The content is framed as the headers say: chunks go before a length, and without either there is none. */
  predicate Framed(content: Content, m: Meaning) {
    match content
    case NoContent => !m.flags.chunked && m.length == -1
    case Sized(bytes) => !m.flags.chunked && m.length == |bytes|
    case InChunks(c) => m.flags.chunked && HttpChunks.CodingOk(c)
  }

  predicate RequestOk(r: Message) {
    HeadOk(r) && !Leaves(r) && Framed(r.content, Said(r))
  }

  // ---- The wire ---------------------------------------------------------------------------------

  function ContentWire(content: Content): seq<byte> {
    match content
    case NoContent => []
    case Sized(bytes) => bytes
    case InChunks(c) => HttpChunks.Wire(c)
  }

  /** The empty line behind the headers, and the content. */
  function TailWire(r: Message): seq<byte> {
    r.empty + ContentWire(r.content)
  }

  function RequestWire(r: Message): seq<byte> {
    LineWire(r.line) + (HeadersWire(r.headers) + TailWire(r))
  }

  // ---- The calls --------------------------------------------------------------------------------

  /** The calls behind the header lines, for a content from base on. */
  function TailCalls(p: Parser, content: Content, base: nat): seq<Event> {
    match content
    case NoContent => [HeadersComplete(SeenHeaders(p, 0)), MessageComplete(SeenHeaders(p, 0))]
    case Sized(bytes) => SizedCalls(SeenHeaders(p, |bytes|), |bytes|, base)
    case InChunks(c) => [HeadersComplete(Seen(AtFirstChunk(p)))] + HttpChunks.ChunkedCalls(AtFirstChunk(p), c, base)
  }

  /** Where the content starts, when the header lines start at base. */
  function ContentAt(r: Message, base: nat): nat {
    base + |HeadersWire(r.headers)| + |r.empty|
  }

  function RequestCalls(r: Message, base: nat): seq<Event> {
    var fields := base + |LineWire(r.line)|;
    LineCalls(r.line, base)
    + (HeadersCalls(Headed(r.line), r.headers, fields)
       + TailCalls(Told(Headed(r.line), Said(r)), r.content, ContentAt(r, fields)))
  }

  // ---- The tail ---------------------------------------------------------------------------------

  /** The parser of a request behind header lines that announce this content. */
  predicate AtTail(p: Parser, content: Content) {
    AtLineStart(p) && HeadersOver(AtEmptyLine(p)) && Framed(content, MeaningOf(p))
  }

  lemma TailFacts(p: Parser, content: Content)
    requires AtTail(p, content)
    ensures AtLineStart(p) && HeadersOver(AtEmptyLine(p)) && AtEmptyLine(p) == p.(state := HeadersAlmostDone)
    ensures content.NoContent? ==> !p.flags.chunked && p.contentLength == -1
    ensures content.Sized? ==> !p.flags.chunked && p.contentLength == |content.bytes|
    ensures content.InChunks? ==> p.flags.chunked && HttpChunks.CodingOk(content.coding)
    ensures Alike(p, AtEmptyLine(p))
  {
  }

  lemma TailParts(r: Message, rest: seq<byte>)
    ensures TailWire(r) + rest == r.empty + (ContentWire(r.content) + rest)
    ensures |TailWire(r)| == |r.empty| + |ContentWire(r.content)|
    ensures r.content.NoContent? ==> [LF] + (ContentWire(r.content) + rest) == [LF] + rest && |ContentWire(r.content)| == 0
    ensures r.content.Sized? ==>
              [LF] + (ContentWire(r.content) + rest) == [LF] + r.content.bytes + rest
              && |ContentWire(r.content)| == |r.content.bytes|
    ensures r.content.InChunks? ==> ContentWire(r.content) == HttpChunks.Wire(r.content.coding)
  {
    hide HttpChunks.Wire;
  }

  lemma TailCallsAre(p: Parser, content: Content, log: seq<Event>, base: nat)
    ensures content.NoContent? ==>
              log + TailCalls(p, content, base) ==
              log + [HeadersComplete(SeenHeaders(p, 0)), MessageComplete(SeenHeaders(p, 0))]
    ensures content.Sized? ==>
              log + TailCalls(p, content, base) ==
              log + SizedCalls(SeenHeaders(p, |content.bytes|), |content.bytes|, base)
    ensures content.InChunks? ==>
              log + TailCalls(p, content, base) ==
              log + [HeadersComplete(Seen(AtFirstChunk(p)))]
              + HttpChunks.ChunkedCalls(AtFirstChunk(p), content.coding, base)
  {
    hide HttpChunks.ChunkedCalls;
    hide SizedCalls;
    hide SeenHeaders;
    hide Seen;
  }

  /** The calls look at what handlers may see of the parser, and no more. */
  lemma TailCallsAlike(p: Parser, q: Parser, content: Content, base: nat)
    requires Alike(p, q)
    ensures TailCalls(q, content, base) == TailCalls(p, content, base)
  {
    hide HttpChunks.ChunkedCalls;
    hide SizedCalls;
    hide Seen;
    match content
    case NoContent => SeenAnywhere(p.(savedLength := 0), q.(savedLength := 0));
    case Sized(bytes) => SeenAnywhere(p.(savedLength := |bytes|), q.(savedLength := |bytes|));
    case InChunks(c) =>
      SeenAnywhere(AtFirstChunk(p), AtFirstChunk(q));
      HttpChunks.ChunkedCallsAlike(AtFirstChunk(p), AtFirstChunk(q), c, base);
  }

  lemma EndedOn(c: Call, n: nat, k: nat, log: seq<Event>)
    requires Ended(c, k, log)
    ensures Ended(Later(n, c), n + k, log)
  {
  }

  /** What follows the header lines, whatever comes behind it. */
  lemma TailEnds(p: Parser, log: seq<Event>, r: Message, rest: seq<byte>, base: nat)
    requires AtTail(p, r.content) && LineEnd(r.empty)
    ensures Ended(Process(p, log, TailWire(r) + rest, base), |TailWire(r)|,
                  log + TailCalls(p, r.content, base + |r.empty|))
  {
    hide *;
    var e, all := AtEmptyLine(p), log + TailCalls(p, r.content, base + |r.empty|);
    TailFacts(p, r.content);
    TailParts(r, rest);
    EmptyLineEnds(p, log, r.empty, ContentWire(r.content) + rest, base);
    var n := |r.empty| - 1;
    TailCallsAlike(p, e, r.content, base + |r.empty|);
    TailCallsAre(e, r.content, log, base + n + 1);
    match r.content {
      case NoContent => NoBodyEnds(e, log, rest, base + n);
      case Sized(bytes) => SizedEnds(e, log, bytes, rest, base + n);
      case InChunks(c) => ChunksEnd(e, log, c, rest, base + n);
    }
    EndedOn(Process(e, log, [LF] + (ContentWire(r.content) + rest), base + n), n, 1 + |ContentWire(r.content)|, all);
  }

  // ---- Whole requests ---------------------------------------------------------------------------

  lemma HeadedFacts(p: Parser, l: RequestLine)
    requires Fresh(p) && RequestLineOk(l)
    ensures AtLineStart(AfterLine(p, l)) && Alike(Headed(l), AfterLine(p, l))
    ensures MeaningOf(AfterLine(p, l)) == Meaning(NO_FLAGS, -1)
  {
    hide MethodName;
    hide HttpTargets.IsTarget;
    hide HttpVersions.VersionForm;
  }

  /** The parser behind the header lines. */
  lemma BehindHeaders(p: Parser, r: Message, q: Parser)
    requires Fresh(p) && RequestOk(r) && Behind(AfterLine(p, r.line), q, Said(r))
    ensures AtTail(q, r.content) && Alike(Told(Headed(r.line), Said(r)), q)
  {
    hide MethodName;
    hide EffectAll;
    hide RequestLineOk;
    FlagsSaid(r.headers, Meaning(NO_FLAGS, -1));
  }

  lemma HeadParts(r: Message)
    requires HeadOk(r)
    ensures RequestLineOk(r.line) && AllHeadersOk(r.headers) && LineEnd(r.empty)
    ensures Said(r) == EffectAll(r.headers, Meaning(NO_FLAGS, -1))
  {
  }

  lemma RequestParts(r: Message)
    requires RequestOk(r)
    ensures HeadOk(r) && !Leaves(r)
  {
  }

  lemma RequestWireAnd(r: Message, rest: seq<byte>)
    ensures RequestWire(r) + rest == LineWire(r.line) + (HeadersWire(r.headers) + (TailWire(r) + rest))
    ensures |RequestWire(r)| == |LineWire(r.line)| + (|HeadersWire(r.headers)| + |TailWire(r)|)
  {
    hide LineWire;
    hide HeadersWire;
    hide TailWire;
  }

  lemma RequestCallsAre(r: Message, log: seq<Event>, base: nat)
    ensures var fields := base + |LineWire(r.line)|;
            log + RequestCalls(r, base) ==
            log + LineCalls(r.line, base) + HeadersCalls(Headed(r.line), r.headers, fields)
            + TailCalls(Told(Headed(r.line), Said(r)), r.content, ContentAt(r, fields))
  {
    hide LineWire;
    hide LineCalls;
    hide HeadersCalls;
    hide TailCalls;
    hide Headed;
    hide Said;
    hide ContentAt;
  }

  lemma ContentAtIs(r: Message, base: nat)
    ensures ContentAt(r, base) == base + |HeadersWire(r.headers)| + |r.empty|
  {
  }

  /** The head of a request: its line and its header lines. */
  lemma HeadTaken(p: Parser, log: seq<Event>, r: Message, base: nat) returns (q: Parser)
    requires Fresh(p) && HeadOk(r)
    ensures var fields := base + |LineWire(r.line)|;
            Takes(p, log, LineWire(r.line) + HeadersWire(r.headers), base, q,
                  log + LineCalls(r.line, base) + HeadersCalls(Headed(r.line), r.headers, fields))
    ensures Behind(AfterLine(p, r.line), q, Said(r))
  {
    hide *;
    HeadParts(r);
    HeadedFacts(p, r.line);
    var h, fields := AfterLine(p, r.line), base + |LineWire(r.line)|;
    var one := log + LineCalls(r.line, base);
    LineTaken(p, log, r.line, base);
    HeadersCallsAlike(Headed(r.line), h, r.headers, fields);
    q := HeadersTaken(h, one, r.headers, fields);
    TakesBoth(p, log, LineWire(r.line), base, h, one, HeadersWire(r.headers), q,
              one + HeadersCalls(Headed(r.line), r.headers, fields));
  }

  /**
   * A fresh parser takes a request as it stands on the wire, whatever follows it: it consumes exactly the
   * request, makes the calls for its parts in order, and is back at the start.
   */
  lemma RequestParsed(p: Parser, log: seq<Event>, r: Message, rest: seq<byte>, base: nat)
    requires Fresh(p) && RequestOk(r)
    ensures Ended(Process(p, log, RequestWire(r) + rest, base), |RequestWire(r)|, log + RequestCalls(r, base))
  {
    hide *;
    RequestParts(r);
    HeadParts(r);
    RequestWireAnd(r, rest);
    RequestCallsAre(r, log, base);
    var head, fields := LineWire(r.line) + HeadersWire(r.headers), base + |LineWire(r.line)|;
    ContentAtIs(r, fields);
    var all := log + RequestCalls(r, base);
    var two := log + LineCalls(r.line, base) + HeadersCalls(Headed(r.line), r.headers, fields);
    var q := HeadTaken(p, log, r, base);
    BehindHeaders(p, r, q);
    TailCallsAlike(Told(Headed(r.line), Said(r)), q, r.content, ContentAt(r, fields));
    TailEnds(q, two, r, rest, base + |head|);
    EndedLater(p, log, head, base, q, two, TailWire(r) + rest, |TailWire(r)|, all);
    assert RequestWire(r) + rest == head + (TailWire(r) + rest);
  }

  // ---- Requests that hand the connection over ---------------------------------------------------

  function LeavingWire(r: Message): seq<byte> {
    LineWire(r.line) + HeadersWire(r.headers) + r.empty
  }

  function LeavingCalls(r: Message, base: nat): seq<Event> {
    var seen := SeenLeaving(Told(Headed(r.line), Said(r)));
    LineCalls(r.line, base) + HeadersCalls(Headed(r.line), r.headers, base + |LineWire(r.line)|)
    + [HeadersComplete(seen), MessageComplete(seen)]
  }

  lemma BehindLeaving(p: Parser, r: Message, q: Parser)
    requires Fresh(p) && HeadOk(r) && Leaves(r) && Behind(AfterLine(p, r.line), q, Said(r))
    ensures AtLineStart(q) && AtEmptyLine(q).state == HeadersAlmostDone && Leaving(AtEmptyLine(q))
    ensures SeenLeaving(AtEmptyLine(q)) == SeenLeaving(Told(Headed(r.line), Said(r)))
  {
    hide MethodName;
    hide EffectAll;
    hide RequestLineOk;
    hide SomeSays;
    hide SomeUpgrade;
    hide AllHeadersOk;
    FlagsSaid(r.headers, Meaning(NO_FLAGS, -1));
  }

  lemma LeavingCallsAre(r: Message, log: seq<Event>, base: nat)
    ensures var seen := SeenLeaving(Told(Headed(r.line), Said(r)));
            log + LeavingCalls(r, base) ==
            log + LineCalls(r.line, base) + HeadersCalls(Headed(r.line), r.headers, base + |LineWire(r.line)|)
            + [HeadersComplete(seen), MessageComplete(seen)]
  {
    hide LineWire;
    hide LineCalls;
    hide HeadersCalls;
    hide SeenLeaving;
    hide Headed;
    hide Said;
  }

  lemma LeavingWireIs(r: Message)
    ensures LeavingWire(r) == LineWire(r.line) + HeadersWire(r.headers) + r.empty
  {
  }

  /**
   * A request that asks for a tunnel or an upgrade ends at its empty line: it is told like the others, without a
   * content, and nothing behind it is read.
   */
  lemma LeavingParsed(p: Parser, log: seq<Event>, r: Message, rest: seq<byte>, base: nat)
    requires Fresh(p) && HeadOk(r) && Leaves(r)
    ensures var c := Process(p, log, LeavingWire(r) + rest, base);
            c.status == Switched && c.consumed == |LeavingWire(r)| && c.log == log + LeavingCalls(r, base)
  {
    hide *;
    HeadParts(r);
    LeavingWireIs(r);
    LeavingCallsAre(r, log, base);
    var head, fields := LineWire(r.line) + HeadersWire(r.headers), base + |LineWire(r.line)|;
    var two := log + LineCalls(r.line, base) + HeadersCalls(Headed(r.line), r.headers, fields);
    var q := HeadTaken(p, log, r, base);
    BehindLeaving(p, r, q);
    var at := base + |head|;
    EmptyLineEnds(q, two, r.empty, rest, at);
    var n := |r.empty| - 1;
    var last := Process(AtEmptyLine(q), two, [LF] + rest, at + n);
    LeavingEnds(AtEmptyLine(q), two, rest, at + n);
    LaterIs(n, last);
    TakenFirst(p, log, head, base, q, two, r.empty + rest);
    LaterIs(|head|, Process(q, two, r.empty + rest, at));
    assert LeavingWire(r) + rest == head + (r.empty + rest);
  }

  // ---- Whether the connection persists ----------------------------------------------------------

  function Trailers(r: Message): seq<Header> {
    if r.content.InChunks? then r.content.coding.trailers else []
  }

  /** A Connection or Proxy-Connection line of a request, among its headers or its trailers, says a word. */
  predicate Asks(r: Message, text: string) {
    SomeSays(r.headers, Connection, text) || SomeSays(Trailers(r), Connection, text)
  }

  /** With a major and a minor version above zero unless close is said; otherwise if keep-alive is. */
  predicate Persists(r: Message) {
    if r.line.major > 0 && r.line.minor > 0 then !Asks(r, HTTP_CLOSE) else Asks(r, HTTP_KEEP_ALIVE)
  }

  /** What is known at the end of a request. */
  function Finally(r: Message): Parser {
    var p := Told(Headed(r.line), Said(r));
    if r.content.InChunks?
    then
      var q := HttpChunks.Trailing(AtFirstChunk(p));
      Told(q, EffectAll(Trailers(r), MeaningOf(q)))
    else p.(savedLength := if p.contentLength > 0 then p.contentLength else 0)
  }

  lemma FinallySaid(r: Message)
    requires RequestOk(r)
    ensures ShouldKeepAlive(Finally(r)) <==> Persists(r)
  {
    hide SomeSays;
    hide EffectAll;
    FlagsSaid(r.headers, Meaning(NO_FLAGS, -1));
    var q := HttpChunks.Trailing(AtFirstChunk(Told(Headed(r.line), Said(r))));
    FlagsSaid(Trailers(r), MeaningOf(q));
    NoneSays(Connection, HTTP_CLOSE);
    NoneSays(Connection, HTTP_KEEP_ALIVE);
  }

  lemma NoneSays(kind: HeaderState, text: string)
    ensures !SomeSays([], kind, text)
  {
  }

  lemma TailLast(r: Message, base: nat)
    requires RequestOk(r)
    ensures var calls := TailCalls(Told(Headed(r.line), Said(r)), r.content, base);
            calls != [] && calls[|calls| - 1] == MessageComplete(Seen(Finally(r)))
  {
    hide EffectAll;
    hide Seen;
    hide Headed;
    hide HttpChunks.CodingOk;
  }

  lemma SeenKeepAlive(p: Parser)
    ensures Seen(p).flags.keepAlive == ShouldKeepAlive(p)
  {
  }

  lemma LastOfRequest(r: Message, base: nat)
    ensures var tail := TailCalls(Told(Headed(r.line), Said(r)), r.content, ContentAt(r, base + |LineWire(r.line)|));
            var calls := RequestCalls(r, base);
            tail != [] ==> calls != [] && calls[|calls| - 1] == tail[|tail| - 1]
  {
    hide TailCalls;
    hide LineCalls;
    hide HeadersCalls;
    hide LineWire;
    hide ContentAt;
    hide Headed;
    hide Said;
  }

  /** The last call of a request tells whether the connection persists, as the lines of the request ask. */
  lemma Persistence(r: Message, base: nat)
    requires RequestOk(r)
    ensures var calls := RequestCalls(r, base);
            && calls != [] && calls[|calls| - 1].MessageComplete?
            && (calls[|calls| - 1].seen.flags.keepAlive <==> Persists(r))
  {
    hide *;
    LastOfRequest(r, base);
    TailLast(r, ContentAt(r, base + |LineWire(r.line)|));
    FinallySaid(r);
    SeenKeepAlive(Finally(r));
  }

  // ---- One request after the other --------------------------------------------------------------

  predicate AllOk(rs: seq<Message>) {
    forall i :: 0 <= i < |rs| ==> RequestOk(rs[i])
  }

  function AllWire(rs: seq<Message>): seq<byte> {
    if rs == [] then [] else RequestWire(rs[0]) + AllWire(rs[1..])
  }

  function AllCalls(rs: seq<Message>, base: nat): seq<Event> {
    if rs == [] then [] else RequestCalls(rs[0], base) + AllCalls(rs[1..], base + |RequestWire(rs[0])|)
  }

  lemma ResetFresh(p: Parser)
    ensures Fresh(Reset(p))
  {
  }

  /** One request on a connection that is between messages. */
  lemma RequestFed(p: Parser, log: seq<Event>, r: Message, base: nat)
    requires Fresh(p) && RequestOk(r)
    ensures var s := FeedAll(Stream(p, log, base, Reading), RequestWire(r));
            s.status == Reading && s.log == log + RequestCalls(r, base) && s.pos == base + |RequestWire(r)| && Fresh(s.p)
  {
    hide Process;
    hide FeedAll;
    hide Fresh;
    hide RequestOk;
    hide RequestWire;
    hide RequestCalls;
    hide Reset;
    RequestParsed(p, log, r, [], base);
    var wire := RequestWire(r);
    assert wire + [] == wire && wire[..|wire|] == wire;
    CallIsFeed(p, log, wire, base);
    ResetFresh(Process(p, log, wire, base).p);
  }

  /** Any number of requests, one right behind the other. */
  lemma {:induction false} Conversation(p: Parser, log: seq<Event>, rs: seq<Message>, base: nat)
    requires Fresh(p) && AllOk(rs)
    ensures var s := FeedAll(Stream(p, log, base, Reading), AllWire(rs));
            s.status == Reading && s.log == log + AllCalls(rs, base) && s.pos == base + |AllWire(rs)| && Fresh(s.p)
    decreases |rs|
  {
    hide FeedAll;
    hide Fresh;
    hide RequestOk;
    hide RequestWire;
    hide RequestCalls;
    var c := Stream(p, log, base, Reading);
    if rs == [] {
      FedNothing(c);
    } else {
      RequestFed(p, log, rs[0], base);
      var s := FeedAll(c, RequestWire(rs[0]));
      FeedAllConcat(c, RequestWire(rs[0]), AllWire(rs[1..]));
      assert forall i :: 0 <= i < |rs| - 1 ==> rs[1..][i] == rs[i + 1];
      Conversation(s.p, s.log, rs[1..], s.pos);
      assert log + RequestCalls(rs[0], base) + AllCalls(rs[1..], s.pos) == log + AllCalls(rs, base);
    }
  }

  /** However the bytes of a conversation are cut into parts, its calls are those of its requests. */
  lemma ConversationInParts(rs: seq<Message>, parts: seq<seq<byte>>)
    requires AllOk(rs) && Concat(parts) == AllWire(rs)
    ensures var s := FeedEach(OPENED, parts);
            s.status == Reading && s.log == AllCalls(rs, 0) && s.pos == |AllWire(rs)| && Fresh(s.p)
  {
    hide FeedAll;
    hide AllWire;
    hide AllCalls;
    hide AllOk;
    PartsDoNotMatter(OPENED, parts);
    Conversation(FRESH, [], rs, 0);
    assert [] + AllCalls(rs, 0) == AllCalls(rs, 0);
  }

  // ---- The server -------------------------------------------------------------------------------

  lemma NoMethodPri(m: nat)
    requires 1 <= m <= 24
    ensures var name := MethodName(m); |name| >= 3 && !(name[0] == 'P' && name[1] == 'R' && name[2] == 'I')
  {
  }

  lemma PrefaceStarts()
    ensures |HttpStream.PREFACE| == 24
    ensures HttpStream.PREFACE[0] == Ch('P') && HttpStream.PREFACE[1] == Ch('R') && HttpStream.PREFACE[2] == Ch('I')
  {
  }

  /** What starts with a request line does not start like the preface of the other protocol. */
  lemma LineStarts(l: RequestLine, data: seq<byte>)
    requires RequestLineOk(l) && LineWire(l) <= data
    ensures !HttpStream.Waiting(data) && !(HttpStream.PREFACE <= data)
  {
    hide MethodName;
    hide HttpTargets.IsTarget;
    hide HttpVersions.VersionForm;
    hide HttpStream.PREFACE;
    PrefaceStarts();
    var name := Ascii(MethodName(l.verb));
    assert data[..|LineWire(l)|] == LineWire(l);
    if l.blank != [] {
      assert data[0] == l.blank[0];
    } else {
      NoMethodPri(l.verb);
      PlainLetters(l.verb);
      assert data[0] == name[0] && data[1] == name[1] && data[2] == name[2];
    }
  }

  lemma FirstLine(rs: seq<Message>)
    requires AllOk(rs) && rs != []
    ensures RequestLineOk(rs[0].line) && LineWire(rs[0].line) <= AllWire(rs)
  {
    hide LineWire;
    hide RequestLineOk;
    hide HeadersWire;
    hide TailWire;
    var line, more := LineWire(rs[0].line), HeadersWire(rs[0].headers) + TailWire(rs[0]);
    assert AllWire(rs) == line + (more + AllWire(rs[1..]));
  }

  /** No request is taken for the preface. */
  lemma NotThePreface(rs: seq<Message>)
    requires AllOk(rs) && rs != []
    ensures !HttpStream.Waiting(AllWire(rs)) && !(HttpStream.PREFACE <= AllWire(rs))
  {
    hide *;
    FirstLine(rs);
    LineStarts(rs[0].line, AllWire(rs));
  }

  lemma PlainLetters(m: nat)
    requires 1 <= m <= 24 && |MethodName(m)| >= 3
    ensures forall i :: 0 <= i < |MethodName(m)| ==> Ascii(MethodName(m))[i] == MethodName(m)[i] as int
  {
    hide MethodName;
    forall i | 0 <= i < |MethodName(m)| ensures Ascii(MethodName(m))[i] == MethodName(m)[i] as int {
      HttpMethods.LetterRange(m, i);
    }
  }

  /**
   * A connection that got the bytes of any requests, in whatever arrivals and with whatever locks and
   * releases, and that nobody holds up now, has told its handlers exactly those requests, in order, unless an
   * arrival replaced the buffer under a mark.
   */
  lemma Served(c: HttpStream.Connection, rs: seq<Message>)
    requires c.Valid() && !c.lock && AllOk(rs) && c.arrived == AllWire(rs) && c.phase != HttpStream.Dangling
    ensures c.phase == HttpStream.Open && Joined(c.parser.calls) == AllCalls(rs, 0)
  {
    hide FeedAll;
    hide Joined;
    hide AllWire;
    hide AllCalls;
    hide AllOk;
    hide HttpStream.Waiting;
    hide HttpStream.PREFACE;
    Conversation(FRESH, [], rs, 0);
    assert [] + AllCalls(rs, 0) == AllCalls(rs, 0);
    if rs == [] {
      NothingSent();
    } else {
      NotThePreface(rs);
    }
    HttpStream.ReadOrWaiting(c);
  }

  // ---- Handed over ------------------------------------------------------------------------------

  lemma LeavingLine(r: Message, rest: seq<byte>)
    ensures LeavingWire(r) + rest == LineWire(r.line) + (HeadersWire(r.headers) + r.empty + rest)
  {
    hide LineWire;
    hide HeadersWire;
  }

  /** What starts with requests does not start like the preface. */
  lemma StartsNotThePreface(rs: seq<Message>, r: Message, rest: seq<byte>)
    requires AllOk(rs) && HeadOk(r)
    ensures var data := AllWire(rs) + (LeavingWire(r) + rest);
            !HttpStream.Waiting(data) && !(HttpStream.PREFACE <= data)
  {
    hide *;
    var data := AllWire(rs) + (LeavingWire(r) + rest);
    if rs == [] {
      NothingSent();
      HeadParts(r);
      LeavingLine(r, rest);
      assert data == LineWire(r.line) + (HeadersWire(r.headers) + r.empty + rest);
      LineStarts(r.line, data);
    } else {
      FirstLine(rs);
      assert AllWire(rs) <= data;
      LineStarts(rs[0].line, data);
    }
  }

  /** Requests, and then one that asks for a tunnel or an upgrade, whatever follows it. */
  lemma LeavingFed(rs: seq<Message>, r: Message, rest: seq<byte>)
    requires AllOk(rs) && HeadOk(r) && Leaves(r)
    ensures var s := FeedAll(OPENED, AllWire(rs) + (LeavingWire(r) + rest));
            && s.status == Switched && s.log == AllCalls(rs, 0) + LeavingCalls(r, |AllWire(rs)|)
            && s.pos == |AllWire(rs)| + |LeavingWire(r)|
  {
    hide *;
    var at, data := |AllWire(rs)|, LeavingWire(r) + rest;
    OpenedIs();
    Conversation(FRESH, [], rs, 0);
    assert [] + AllCalls(rs, 0) == AllCalls(rs, 0);
    var s := FeedAll(OPENED, AllWire(rs));
    FeedAllConcat(OPENED, AllWire(rs), data);
    LeavingParsed(s.p, s.log, r, rest, at);
    var c := Process(s.p, s.log, data, at);
    CallIsFeed(s.p, s.log, data, at);
    AfterSwitch(c, at);
    assert data == data[..c.consumed] + data[c.consumed..];
    FeedAllConcat(s, data[..c.consumed], data[c.consumed..]);
    FeedStopped(FeedAll(s, data[..c.consumed]), data[c.consumed..]);
  }

  lemma OpenedIs()
    ensures OPENED == Stream(FRESH, [], 0, Reading) && Fresh(FRESH)
  {
  }

  lemma AfterSwitch(c: Call, base: nat)
    requires c.status == Switched
    ensures AfterCall(c, base) == Stream(c.p, c.log, base + c.consumed, Switched)
  {
  }

  /**
   * A connection that got the bytes of any requests and then of one that asks for a tunnel or an upgrade has told
   * its handlers all of them, and has been handed over right behind the last one, whatever came behind it.
   */
  lemma HandedOver(c: HttpStream.Connection, rs: seq<Message>, r: Message, rest: seq<byte>)
    requires c.Valid() && (c.phase == HttpStream.Open ==> !c.lock) && AllOk(rs) && HeadOk(r) && Leaves(r)
    requires c.arrived == AllWire(rs) + (LeavingWire(r) + rest) && c.phase != HttpStream.Dangling
    ensures c.phase == HttpStream.Handed && Joined(c.parser.calls) == AllCalls(rs, 0) + LeavingCalls(r, |AllWire(rs)|)
    ensures c.stopped == |AllWire(rs)| + |LeavingWire(r)|
  {
    hide FeedAll;
    hide Joined;
    hide AllWire;
    hide AllCalls;
    hide AllOk;
    hide HeadOk;
    hide Leaves;
    hide LeavingWire;
    hide LeavingCalls;
    hide HttpStream.Waiting;
    hide HttpStream.PREFACE;
    LeavingFed(rs, r, rest);
    StartsNotThePreface(rs, r, rest);
    HttpStream.ReadOrWaiting(c);
  }

  // ---- Refused ----------------------------------------------------------------------------------

  function HeadWire(r: Message): seq<byte> {
    LineWire(r.line) + HeadersWire(r.headers)
  }

  function HeadCalls(r: Message, base: nat): seq<Event> {
    LineCalls(r.line, base) + HeadersCalls(Headed(r.line), r.headers, base + |LineWire(r.line)|)
  }

  lemma HeadIs(r: Message, log: seq<Event>, base: nat)
    ensures HeadWire(r) == LineWire(r.line) + HeadersWire(r.headers)
    ensures log + HeadCalls(r, base) ==
            log + LineCalls(r.line, base) + HeadersCalls(Headed(r.line), r.headers, base + |LineWire(r.line)|)
  {
    hide LineWire;
    hide LineCalls;
    hide HeadersWire;
    hide HeadersCalls;
    hide Headed;
  }

  lemma BehindStart(p: Parser, q: Parser, m: Meaning)
    requires Behind(p, q, m)
    ensures AtLineStart(q)
  {
  }

  /** A byte where a field name may not have it, behind any header lines. */
  lemma BrokenParsed(p: Parser, log: seq<Event>, r: Message, f: seq<byte>, b: byte, rest: seq<byte>, base: nat)
    requires Fresh(p) && HeadOk(r) && NameChars(f) && HttpOddLines.Breaks(f, b)
    requires (f != [] ==> f[0] != 32) && (f == [] ==> b != 9)
    ensures var c := Process(p, log, HeadWire(r) + (f + ([b] + rest)), base);
            c.status == Failed && c.consumed == |HeadWire(r)| + |f| + 1 && c.log == log + HeadCalls(r, base)
  {
    hide *;
    HeadIs(r, log, base);
    var q := HeadTaken(p, log, r, base);
    BehindStart(AfterLine(p, r.line), q, Said(r));
    var two, data := log + HeadCalls(r, base), f + ([b] + rest);
    HttpOddLines.BrokenLine(q, two, f, b, rest, base + |HeadWire(r)|);
    TakenFirst(p, log, HeadWire(r), base, q, two, data);
    LaterIs(|HeadWire(r)|, Process(q, two, data, base + |HeadWire(r)|));
  }

  lemma AfterFailure(c: Call, base: nat)
    requires c.status == Failed
    ensures AfterCall(c, base) == Stream(c.p, c.log, base + c.consumed, Failed)
  {
  }

  lemma BrokenFed(rs: seq<Message>, r: Message, f: seq<byte>, b: byte, rest: seq<byte>)
    requires AllOk(rs) && HeadOk(r) && NameChars(f) && HttpOddLines.Breaks(f, b)
    requires (f != [] ==> f[0] != 32) && (f == [] ==> b != 9)
    ensures var s := FeedAll(OPENED, AllWire(rs) + (HeadWire(r) + (f + ([b] + rest))));
            && s.status == Failed && s.log == AllCalls(rs, 0) + HeadCalls(r, |AllWire(rs)|)
            && s.pos == |AllWire(rs)| + |HeadWire(r)| + |f| + 1
  {
    hide *;
    var at, data := |AllWire(rs)|, HeadWire(r) + (f + ([b] + rest));
    OpenedIs();
    Conversation(FRESH, [], rs, 0);
    assert [] + AllCalls(rs, 0) == AllCalls(rs, 0);
    var s := FeedAll(OPENED, AllWire(rs));
    FeedAllConcat(OPENED, AllWire(rs), data);
    BrokenParsed(s.p, s.log, r, f, b, rest, at);
    var c := Process(s.p, s.log, data, at);
    CallIsFeed(s.p, s.log, data, at);
    AfterFailure(c, at);
    assert data == data[..c.consumed] + data[c.consumed..];
    FeedAllConcat(s, data[..c.consumed], data[c.consumed..]);
    FeedStopped(FeedAll(s, data[..c.consumed]), data[c.consumed..]);
  }

  lemma HeadNotThePreface(rs: seq<Message>, r: Message, rest: seq<byte>)
    requires AllOk(rs) && HeadOk(r)
    ensures var data := AllWire(rs) + (HeadWire(r) + rest);
            !HttpStream.Waiting(data) && !(HttpStream.PREFACE <= data)
  {
    hide *;
    var data := AllWire(rs) + (HeadWire(r) + rest);
    HeadIs(r, [], 0);
    if rs == [] {
      NothingSent();
      HeadParts(r);
      assert data == LineWire(r.line) + (HeadersWire(r.headers) + rest);
      LineStarts(r.line, data);
    } else {
      FirstLine(rs);
      assert AllWire(rs) <= data;
      LineStarts(rs[0].line, data);
    }
  }

  /**
   * A connection that got any requests, and then one with a byte that no field name has, has told its handlers the
   * requests and the lines in front of that byte, and is closed at it, whatever came behind.
   */
  lemma ClosedOver(c: HttpStream.Connection, rs: seq<Message>, r: Message, f: seq<byte>, b: byte, rest: seq<byte>)
    requires c.Valid() && (c.phase == HttpStream.Open ==> !c.lock) && c.phase != HttpStream.Dangling
    requires AllOk(rs) && HeadOk(r) && NameChars(f) && HttpOddLines.Breaks(f, b)
    requires (f != [] ==> f[0] != 32) && (f == [] ==> b != 9)
    requires c.arrived == AllWire(rs) + (HeadWire(r) + (f + ([b] + rest)))
    ensures c.phase == HttpStream.Closed && Joined(c.parser.calls) == AllCalls(rs, 0) + HeadCalls(r, |AllWire(rs)|)
    ensures c.stopped == |AllWire(rs)| + |HeadWire(r)| + |f| + 1
  {
    hide FeedAll;
    hide Joined;
    hide AllWire;
    hide AllCalls;
    hide AllOk;
    hide HeadOk;
    hide HeadWire;
    hide HeadCalls;
    hide HttpOddLines.Breaks;
    hide NameChars;
    hide HttpStream.Waiting;
    hide HttpStream.PREFACE;
    BrokenFed(rs, r, f, b, rest);
    HeadNotThePreface(rs, r, f + ([b] + rest));
    HttpStream.ReadOrWaiting(c);
  }

  // ---- Requests that arrive whole ---------------------------------------------------------------

  /** A cut between two of the requests. */
  ghost predicate Between(rs: seq<Message>, k: nat) {
    exists n: nat :: n <= |rs| && AllOk(rs[..n]) && k == |AllWire(rs[..n])|
  }

  lemma {:induction false} FirstRequests(rs: seq<Message>, n: nat)
    requires AllOk(rs) && n <= |rs|
    ensures AllOk(rs[..n]) && AllWire(rs[..n]) <= AllWire(rs)
    decreases n
  {
    hide RequestOk;
    hide RequestWire;
    if n > 0 {
      assert forall i :: 0 <= i < |rs| - 1 ==> rs[1..][i] == rs[i + 1];
      FirstRequests(rs[1..], n - 1);
      assert rs[..n][0] == rs[0] && rs[..n][1..] == rs[1..][..n - 1];
    }
  }

  /** Requests end outside of everything that has a mark. */
  lemma RequestsEndOutside(rs: seq<Message>)
    requires AllOk(rs)
    ensures !HttpMarks.EndsInside(AllWire(rs))
  {
    hide FeedAll;
    hide AllWire;
    hide AllCalls;
    hide AllOk;
    Conversation(FRESH, [], rs, 0);
  }

  lemma CutOutside(arrived: seq<byte>, rs: seq<Message>, k: nat)
    requires AllOk(rs) && arrived == AllWire(rs) && Between(rs, k)
    ensures k <= |arrived| && !HttpMarks.EndsInside(arrived[..k])
  {
    hide AllWire;
    hide AllOk;
    hide HttpMarks.EndsInside;
    var n: nat :| n <= |rs| && AllOk(rs[..n]) && k == |AllWire(rs[..n])|;
    FirstRequests(rs, n);
    RequestsEndOutside(rs[..n]);
    assert arrived[..k] == AllWire(rs[..n]);
  }

  /** Requests of which each arrives whole, alone or with others, are served whatever the buffers. */
  lemma ServedWhole(c: HttpStream.Connection, rs: seq<Message>)
    requires c.Valid() && !c.lock && AllOk(rs) && c.arrived == AllWire(rs)
    requires forall k :: k in c.cuts ==> Between(rs, k)
    ensures c.phase == HttpStream.Open && Joined(c.parser.calls) == AllCalls(rs, 0)
  {
    hide *;
    forall k | k in c.cuts && k <= |c.arrived| ensures !HttpMarks.EndsInside(c.arrived[..k]) {
      CutOutside(c.arrived, rs, k);
    }
    HttpCuts.CleanCuts(c);
    Served(c, rs);
  }

  lemma NothingSent()
    ensures AllWire([]) == [] && AllCalls([], 0) == [] && FeedAll(OPENED, []) == OPENED
    ensures !(HttpStream.PREFACE <= [])
  {
  }
}
