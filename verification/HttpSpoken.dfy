/**
 * What handlers read when they look the ranges they are given up in the stream: the targets, names, values and
 * bodies that were sent, byte for byte and in order.
 */
module HttpSpoken {
  import opened Common
  import opened HttpTypes
  import opened HttpStep
  import opened HttpRun
  import opened HttpRequestLine
  import opened HttpHeaderLines
  import opened HttpRequest
  import opened HttpConversation
  import HttpChunks
  import HttpStream

  datatype Piece =
    | TargetOf(bytes: seq<byte>)
    | NameOf(bytes: seq<byte>)
    | ValueOf(bytes: seq<byte>)
    | BodyOf(bytes: seq<byte>)

  /** A range of the stream, if it is one. */
  function Range(stream: seq<byte>, from: nat, to: nat): seq<byte> {
    if from <= to <= |stream| then stream[from..to] else []
  }

  /** What a call hands over. */
  function Read(e: Event, stream: seq<byte>): seq<Piece> {
    match e
    case Url(from, to, _) => [TargetOf(Range(stream, from, to))]
    case FieldName(from, to, _) => [NameOf(Range(stream, from, to))]
    case FieldValue(from, to, _) => [ValueOf(Range(stream, from, to))]
    case Body(from, to) => [BodyOf(Range(stream, from, to))]
    case _ => []
  }

  function Spoken(es: seq<Event>, stream: seq<byte>): seq<Piece> {
    if es == [] then [] else Read(es[0], stream) + Spoken(es[1..], stream)
  }

  // ---- What was sent ----------------------------------------------------------------------------

  function HeaderPieces(hs: seq<Header>): seq<Piece> {
    if hs == [] then [] else [NameOf(hs[0].name), ValueOf(hs[0].value)] + HeaderPieces(hs[1..])
  }

  function ChunkPieces(cs: seq<HttpChunks.Chunk>): seq<Piece> {
    if cs == [] then [] else [BodyOf(cs[0].data)] + ChunkPieces(cs[1..])
  }

  function ContentPieces(content: Content): seq<Piece> {
    match content
    case NoContent => []
    case Sized(bytes) => if bytes == [] then [] else [BodyOf(bytes)]
    case InChunks(c) => ChunkPieces(c.chunks) + HeaderPieces(c.trailers)
  }

  function RequestPieces(r: Message): seq<Piece> {
    [TargetOf(r.line.target)] + HeaderPieces(r.headers) + ContentPieces(r.content)
  }

  function AllPieces(rs: seq<Message>): seq<Piece> {
    if rs == [] then [] else RequestPieces(rs[0]) + AllPieces(rs[1..])
  }

  // ---- Bytes within a stream --------------------------------------------------------------------

  /** The stream holds these bytes at a position. */
  predicate Holds(stream: seq<byte>, at: nat, bytes: seq<byte>) {
    at + |bytes| <= |stream| && stream[at..at + |bytes|] == bytes
  }

  lemma HoldsBoth(stream: seq<byte>, at: nat, a: seq<byte>, b: seq<byte>)
    requires Holds(stream, at, a + b)
    ensures Holds(stream, at, a) && Holds(stream, at + |a|, b)
  {
    assert stream[at..at + |a|] == (a + b)[..|a|];
    assert stream[at + |a|..at + |a| + |b|] == (a + b)[|a|..];
  }

  lemma HoldsRange(stream: seq<byte>, at: nat, bytes: seq<byte>)
    requires Holds(stream, at, bytes)
    ensures Range(stream, at, at + |bytes|) == bytes
  {
  }

  lemma {:induction false} SpokenConcat(a: seq<Event>, b: seq<Event>, stream: seq<byte>)
    ensures Spoken(a + b, stream) == Spoken(a, stream) + Spoken(b, stream)
    decreases |a|
  {
    hide Read;
    if a == [] {
      assert a + b == b;
    } else {
      assert (a + b)[0] == a[0] && (a + b)[1..] == a[1..] + b;
      SpokenConcat(a[1..], b, stream);
    }
  }

  lemma SpokenOne(e: Event, stream: seq<byte>)
    ensures Spoken([e], stream) == Read(e, stream)
  {
    assert [e][1..] == [];
  }

  lemma SpokenTwo(d: Event, e: Event, stream: seq<byte>)
    ensures Spoken([d, e], stream) == Read(d, stream) + Read(e, stream)
  {
    SpokenConcat([d], [e], stream);
    SpokenOne(d, stream);
    SpokenOne(e, stream);
    assert [d] + [e] == [d, e];
  }

  // ---- Part by part -----------------------------------------------------------------------------

  lemma HeaderSpoken(h: Header, seen: Snapshot, stream: seq<byte>, at: nat)
    requires Holds(stream, at, HeaderWire(h))
    ensures Spoken(HeaderCalls(h, seen, at), stream) == [NameOf(h.name), ValueOf(h.value)]
  {
    hide Holds;
    hide Range;
    hide FieldKind;
    hide ValueSeen;
    HoldsBoth(stream, at, h.name + [58] + h.blank, h.value + h.end);
    HoldsBoth(stream, at, h.name + [58], h.blank);
    HoldsBoth(stream, at, h.name, [58]);
    HoldsBoth(stream, ValueAt(h, at), h.value, h.end);
    HoldsRange(stream, at, h.name);
    HoldsRange(stream, ValueAt(h, at), h.value);
    SpokenTwo(HeaderCalls(h, seen, at)[0], HeaderCalls(h, seen, at)[1], stream);
  }

  lemma {:induction false} HeadersSpoken(p: Parser, hs: seq<Header>, stream: seq<byte>, at: nat)
    requires Holds(stream, at, HeadersWire(hs))
    ensures Spoken(HeadersCalls(p, hs, at), stream) == HeaderPieces(hs)
    decreases |hs|
  {
    hide Holds;
    hide HeaderWire;
    hide HeaderCalls;
    hide Effect;
    hide Seen;
    if hs != [] {
      var q, next := Told(p, Effect(hs[0], MeaningOf(p))), at + |HeaderWire(hs[0])|;
      HoldsBoth(stream, at, HeaderWire(hs[0]), HeadersWire(hs[1..]));
      HeaderSpoken(hs[0], Seen(p), stream, at);
      HeadersSpoken(q, hs[1..], stream, next);
      SpokenConcat(HeaderCalls(hs[0], Seen(p), at), HeadersCalls(q, hs[1..], next), stream);
    }
  }

  lemma {:induction false} ChunksSpoken(cs: seq<HttpChunks.Chunk>, stream: seq<byte>, at: nat)
    requires Holds(stream, at, HttpChunks.ChunksWire(cs))
    ensures Spoken(HttpChunks.Pieces(cs, at), stream) == ChunkPieces(cs)
    decreases |cs|
  {
    hide Holds;
    hide Range;
    hide HttpChunks.SizeWire;
    if cs != [] {
      var c, next := cs[0], at + |HttpChunks.ChunkWire(cs[0])|;
      var size := HttpChunks.SizeWire(c.digits, c.extension);
      HoldsBoth(stream, at, HttpChunks.ChunkWire(c), HttpChunks.ChunksWire(cs[1..]));
      HoldsBoth(stream, at, size + c.data, HttpChunks.CRLF);
      HoldsBoth(stream, at, size, c.data);
      HoldsRange(stream, at + |size|, c.data);
      ChunksSpoken(cs[1..], stream, next);
      var piece := Body(at + |size|, at + |size| + |c.data|);
      SpokenOne(piece, stream);
      SpokenConcat([piece], HttpChunks.Pieces(cs[1..], next), stream);
    }
  }

  lemma CodingSpoken(p: Parser, c: HttpChunks.Coding, stream: seq<byte>, at: nat)
    requires Holds(stream, at, HttpChunks.Wire(c))
    ensures Spoken(HttpChunks.ChunkedCalls(p, c, at), stream) == ChunkPieces(c.chunks) + HeaderPieces(c.trailers)
  {
    hide Holds;
    hide Spoken;
    hide HeadersWire;
    hide HeadersCalls;
    hide HttpChunks.SizeWire;
    hide HttpChunks.ChunksWire;
    hide HttpChunks.Pieces;
    hide HttpChunks.TrailersSaid;
    hide Seen;
    var lines, chunks := HttpChunks.ChunkLines(c), HttpChunks.ChunksWire(c.chunks);
    HoldsBoth(stream, at, lines, HeadersWire(c.trailers) + HttpChunks.CRLF);
    HoldsBoth(stream, at, chunks, HttpChunks.SizeWire(c.last.digits, c.last.extension));
    HoldsBoth(stream, at + |lines|, HeadersWire(c.trailers), HttpChunks.CRLF);
    ChunksSpoken(c.chunks, stream, at);
    var q := HttpChunks.Trailing(p);
    HeadersSpoken(q, c.trailers, stream, at + |lines|);
    var line, end := Line(Seen(q)), MessageComplete(Seen(Told(q, HttpChunks.TrailersSaid(p, c.trailers))));
    SpokenOne(line, stream);
    SpokenOne(end, stream);
    SpokenConcat(HttpChunks.Pieces(c.chunks, at), [line], stream);
    SpokenConcat(HeadersCalls(q, c.trailers, at + |lines|), [end], stream);
    SpokenConcat(HttpChunks.Pieces(c.chunks, at) + [line], HttpChunks.TrailerCalls(p, c.trailers, at + |lines|), stream);
  }

  lemma SizedSpoken(seen: Snapshot, bytes: seq<byte>, stream: seq<byte>, at: nat)
    requires Holds(stream, at, bytes)
    ensures Spoken(SizedCalls(seen, |bytes|, at), stream) == if bytes == [] then [] else [BodyOf(bytes)]
  {
    hide Holds;
    hide Spoken;
    hide Range;
    HoldsRange(stream, at, bytes);
    SpokenTwo(HeadersComplete(seen), Body(at, at + |bytes|), stream);
    SpokenTwo(HeadersComplete(seen), MessageComplete(seen), stream);
    SpokenOne(MessageComplete(seen), stream);
    SpokenConcat([HeadersComplete(seen), Body(at, at + |bytes|)], [MessageComplete(seen)], stream);
    if bytes == [] {
      assert SizedCalls(seen, |bytes|, at) == [HeadersComplete(seen), MessageComplete(seen)];
    } else {
      assert SizedCalls(seen, |bytes|, at) == [HeadersComplete(seen), Body(at, at + |bytes|)] + [MessageComplete(seen)];
    }
  }

  lemma TailSpoken(p: Parser, content: Content, stream: seq<byte>, at: nat)
    requires Holds(stream, at, ContentWire(content))
    ensures Spoken(TailCalls(p, content, at), stream) == ContentPieces(content)
  {
    hide Holds;
    hide Spoken;
    hide HttpChunks.Wire;
    hide HttpChunks.ChunkedCalls;
    hide SizedCalls;
    hide Seen;
    match content
    case NoContent =>
      SpokenTwo(HeadersComplete(SeenHeaders(p, 0)), MessageComplete(SeenHeaders(p, 0)), stream);
    case Sized(bytes) =>
      SizedSpoken(SeenHeaders(p, |bytes|), bytes, stream, at);
    case InChunks(c) =>
      CodingSpoken(AtFirstChunk(p), c, stream, at);
      SpokenOne(HeadersComplete(Seen(AtFirstChunk(p))), stream);
      SpokenConcat([HeadersComplete(Seen(AtFirstChunk(p)))], HttpChunks.ChunkedCalls(AtFirstChunk(p), c, at), stream);
  }

  lemma LineSpoken(l: RequestLine, stream: seq<byte>, at: nat)
    requires Holds(stream, at, LineWire(l))
    ensures Spoken(LineCalls(l, at), stream) == [TargetOf(l.target)]
  {
    hide Holds;
    hide Spoken;
    hide Range;
    hide MethodWire;
    hide Seen;
    var calls, from := LineCalls(l, at), at + |MethodWire(l)|;
    HoldsBoth(stream, at, MethodWire(l) + (l.target + [32]) + l.gap, l.version + [LF]);
    HoldsBoth(stream, at, MethodWire(l) + (l.target + [32]), l.gap);
    HoldsBoth(stream, at, MethodWire(l), l.target + [32]);
    HoldsBoth(stream, from, l.target, [32]);
    HoldsRange(stream, from, l.target);
    SpokenTwo(calls[0], calls[1], stream);
    SpokenOne(calls[2], stream);
    SpokenConcat([calls[0], calls[1]], [calls[2]], stream);
    assert calls == [calls[0], calls[1]] + [calls[2]];
  }

  lemma RequestSpoken(r: Message, stream: seq<byte>, at: nat)
    requires Holds(stream, at, RequestWire(r))
    ensures Spoken(RequestCalls(r, at), stream) == RequestPieces(r)
  {
    hide Holds;
    hide Spoken;
    hide LineWire;
    hide HeadersWire;
    hide ContentWire;
    hide LineCalls;
    hide HeadersCalls;
    hide TailCalls;
    hide Headed;
    hide Said;
    hide HeaderPieces;
    hide ContentPieces;
    var fields, p := at + |LineWire(r.line)|, Told(Headed(r.line), Said(r));
    var rest := fields + |HeadersWire(r.headers)|;
    HoldsBoth(stream, at, LineWire(r.line), HeadersWire(r.headers) + TailWire(r));
    HoldsBoth(stream, fields, HeadersWire(r.headers), TailWire(r));
    HoldsBoth(stream, rest, r.empty, ContentWire(r.content));
    LineSpoken(r.line, stream, at);
    HeadersSpoken(Headed(r.line), r.headers, stream, fields);
    TailSpoken(p, r.content, stream, rest + |r.empty|);
    var headers, tail := HeadersCalls(Headed(r.line), r.headers, fields), TailCalls(p, r.content, rest + |r.empty|);
    SpokenConcat(headers, tail, stream);
    SpokenConcat(LineCalls(r.line, at), headers + tail, stream);
  }

  lemma {:induction false} AllSpoken(rs: seq<Message>, stream: seq<byte>, at: nat)
    requires AllOk(rs) && Holds(stream, at, AllWire(rs))
    ensures Spoken(AllCalls(rs, at), stream) == AllPieces(rs)
    decreases |rs|
  {
    hide Holds;
    hide RequestWire;
    hide RequestCalls;
    hide RequestPieces;
    hide RequestOk;
    if rs != [] {
      HoldsBoth(stream, at, RequestWire(rs[0]), AllWire(rs[1..]));
      RequestSpoken(rs[0], stream, at);
      AllSpoken(rs[1..], stream, at + |RequestWire(rs[0])|);
      SpokenConcat(RequestCalls(rs[0], at), AllCalls(rs[1..], at + |RequestWire(rs[0])|), stream);
    }
  }

  /**
   * The ranges that a connection handed over for any requests, looked up in the bytes that arrived, are the
   * targets, names, values and bodies of these requests, in order.
   */
  lemma SpokenIsSent(c: HttpStream.Connection, rs: seq<Message>)
    requires c.Valid() && !c.lock && AllOk(rs) && c.arrived == AllWire(rs) && c.phase != HttpStream.Dangling
    ensures Spoken(Joined(c.parser.calls), c.arrived) == AllPieces(rs)
  {
    hide Spoken;
    hide AllWire;
    hide AllCalls;
    hide AllPieces;
    hide AllOk;
    hide Joined;
    Served(c, rs);
    assert c.arrived[..|c.arrived|] == c.arrived;
    AllSpoken(rs, c.arrived, 0);
  }
}
