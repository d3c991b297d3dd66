/**
 * Chunked bodies (section 7.1 of RFC 9112) through the HTTP/1.1 parser: which size lines it takes, and as
 * what size; and that the wire form of a list of chunks is consumed to its last byte, trailers included,
 * the handlers get the bytes of the chunks, and the message is complete once.
 */
module HttpChunks {
  import opened Common
  import opened HttpTypes
  import opened HttpStep
  import opened HttpRun
  import opened HttpHeaderLines

  /** A chunk with its size as it is written, and its extensions. */
  datatype Chunk = Chunk(digits: seq<byte>, extension: seq<byte>, data: seq<byte>)

  /** A byte that the table of the source has a digit for: these are the hexadecimal digits and all bytes above 127. */
  predicate IsHex(b: byte) {
    Unhex(b) != -1
  }

  predicate HexDigits(d: seq<byte>) {
    forall i :: 0 <= i < |d| ==> IsHex(d[i])
  }

  /** The value of hexadecimal digits behind a value v. */
  function HexFrom(v: nat, d: seq<byte>): (r: nat)
    requires HexDigits(d)
    ensures v <= r
    decreases |d|
  {
    if d == [] then v else HexFrom(v * 16 + Unhex(d[0]), d[1..])
  }

  /** Nothing, or what starts with a semicolon or a space and goes on to the end of the line. */
  predicate IsExtension(x: seq<byte>) {
    (x != [] ==> x[0] == Ch(';') || x[0] == Ch(' ')) && forall i :: 0 <= i < |x| ==> x[i] != CR
  }

  predicate SizeLine(digits: seq<byte>, extension: seq<byte>, size: nat) {
    && digits != [] && HexDigits(digits) && IsExtension(extension)
    && HexFrom(0, digits) == size <= INT_MAX
  }

  predicate WellFormed(c: Chunk) {
    c.data != [] && SizeLine(c.digits, c.extension, |c.data|)
  }

  predicate AllWellFormed(cs: seq<Chunk>) {
    forall i :: 0 <= i < |cs| ==> WellFormed(cs[i])
  }

  /** A body as it is sent: chunks, the last one of size zero, and the trailers behind it. */
  datatype Coding = Coding(chunks: seq<Chunk>, last: Chunk, trailers: seq<Header>)

  predicate CodingOk(c: Coding) {
    AllWellFormed(c.chunks) && SizeLine(c.last.digits, c.last.extension, 0) && AllHeadersOk(c.trailers)
  }

  const CRLF: seq<byte> := [13, 10]

  function SizeWire(digits: seq<byte>, extension: seq<byte>): seq<byte> {
    digits + extension + CRLF
  }

  function ChunkWire(c: Chunk): seq<byte> {
    SizeWire(c.digits, c.extension) + c.data + CRLF
  }

  function ChunksWire(cs: seq<Chunk>): seq<byte> {
    if cs == [] then [] else ChunkWire(cs[0]) + ChunksWire(cs[1..])
  }

  /** What comes before the trailers. */
  function ChunkLines(c: Coding): seq<byte> {
    ChunksWire(c.chunks) + SizeWire(c.last.digits, c.last.extension)
  }

  function Wire(c: Coding): seq<byte> {
    ChunkLines(c) + (HeadersWire(c.trailers) + CRLF)
  }

  function Data(cs: seq<Chunk>): seq<byte> {
    if cs == [] then [] else cs[0].data + Data(cs[1..])
  }

  /** The pieces of body handed over for chunks whose wire form starts at base. */
  function Pieces(cs: seq<Chunk>, base: nat): seq<Event> {
    if cs == [] then []
    else
      var from := base + |SizeWire(cs[0].digits, cs[0].extension)|;
      [Body(from, from + |cs[0].data|)] + Pieces(cs[1..], base + |ChunkWire(cs[0])|)
  }

  // ---- The size line ----------------------------------------------------------------------------

  lemma ChunkStep(p: Parser, b: byte, pos: nat)
    requires GroupOf(p.state) == Chunks
    ensures StepByte(p, b, pos) == StepChunk(p, b, pos)
  {
  }

  lemma HexRange(b: byte)
    requires IsHex(b)
    ensures 0 <= Unhex(b) < 16 && b != CR
  {
  }

  /** A step of a chunk state that makes no calls. */
  lemma QuietStep(p: Parser, q: Parser, log: seq<Event>, b: byte, base: nat)
    requires GroupOf(p.state) == Chunks && StepChunk(p, b, base) == Go(q)
    ensures Takes(p, log, [b], base, q, log)
  {
    hide StepByte;
    hide StepChunk;
    hide Takes;
    ChunkStep(p, b, base);
    TakesOne(p, log, b, base);
    EmitNone(log);
  }

  lemma {:induction false} DigitsRun(p: Parser, log: seq<Event>, d: seq<byte>, base: nat)
    requires p.state == ChunkSize && p.contentLength >= 0 && HexDigits(d) && HexFrom(p.contentLength, d) <= INT_MAX
    ensures Takes(p, log, d, base, p.(contentLength := HexFrom(p.contentLength, d)), log)
    decreases |d|
  {
    hide Takes;
    hide Unhex;
    hide IsHex;
    if d == [] {
      TakesNone(p, log, base);
    } else {
      HexRange(d[0]);
      var q := p.(contentLength := p.contentLength * 16 + Unhex(d[0]));
      QuietStep(p, q, log, d[0], base);
      DigitsRun(q, log, d[1..], base + 1);
      TakesBoth(p, log, [d[0]], base, q, log, d[1..], q.(contentLength := HexFrom(p.contentLength, d)), log);
      assert d == [d[0]] + d[1..];
    }
  }

  lemma {:induction false} ParametersRun(p: Parser, log: seq<Event>, x: seq<byte>, base: nat)
    requires p.state == ChunkParameters && forall i :: 0 <= i < |x| ==> x[i] != CR
    ensures Takes(p, log, x, base, p, log)
    decreases |x|
  {
    hide Takes;
    if x == [] {
      TakesNone(p, log, base);
    } else {
      QuietStep(p, p, log, x[0], base);
      ParametersRun(p, log, x[1..], base + 1);
      TakesBoth(p, log, [x[0]], base, p, log, x[1..], p, log);
      assert x == [x[0]] + x[1..];
    }
  }

  lemma ExtensionStep(p: Parser, b: byte, base: nat)
    requires p.state == ChunkSize && (b == Ch(';') || b == Ch(' '))
    ensures StepChunk(p, b, base) == Go(p.(state := ChunkParameters))
  {
  }

  lemma LineEndStep(p: Parser, base: nat)
    requires p.state == ChunkSize || p.state == ChunkParameters
    ensures StepChunk(p, CR, base) == Go(p.(state := ChunkSizeAlmostDone))
  {
  }

  /** Extensions, and the carriage return of the size line. */
  lemma ExtensionRun(p: Parser, log: seq<Event>, x: seq<byte>, base: nat)
    requires p.state == ChunkSize && IsExtension(x)
    ensures Takes(p, log, x + [CR], base, p.(state := ChunkSizeAlmostDone), log)
  {
    hide Takes;
    hide StepChunk;
    var q, r := p.(state := ChunkParameters), p.(state := ChunkSizeAlmostDone);
    LineEndStep(p, base);
    LineEndStep(q, base + |x|);
    if x == [] {
      QuietStep(p, r, log, CR, base);
      assert x + [CR] == [CR];
    } else {
      ExtensionStep(p, x[0], base);
      QuietStep(p, q, log, x[0], base);
      ParametersRun(q, log, x[1..], base + 1);
      TakesBoth(p, log, [x[0]], base, q, log, x[1..], q, log);
      assert x == [x[0]] + x[1..];
      QuietStep(q, r, log, CR, base + |x|);
      TakesBoth(p, log, x, base, q, log, [CR], r, log);
    }
  }

  lemma FirstDigitStep(p: Parser, b: byte, base: nat)
    requires p.state == ChunkSizeStart && IsHex(b)
    ensures StepChunk(p, b, base) == Go(p.(state := ChunkSize, contentLength := Unhex(b))) && 0 <= Unhex(b)
  {
  }

  /** A size line up to its line feed leaves the size. */
  lemma SizeRun(p: Parser, log: seq<Event>, d: seq<byte>, x: seq<byte>, size: nat, base: nat)
    requires p.state == ChunkSizeStart && SizeLine(d, x, size)
    ensures Takes(p, log, d + (x + [CR]), base, p.(state := ChunkSizeAlmostDone, contentLength := size), log)
  {
    hide Takes;
    hide StepChunk;
    hide Unhex;
    hide IsHex;
    hide IsExtension;
    FirstDigitStep(p, d[0], base);
    var q := p.(state := ChunkSize, contentLength := Unhex(d[0]));
    var r := q.(contentLength := size);
    QuietStep(p, q, log, d[0], base);
    DigitsRun(q, log, d[1..], base + 1);
    TakesBoth(p, log, [d[0]], base, q, log, d[1..], r, log);
    assert d == [d[0]] + d[1..];
    ExtensionRun(r, log, x, base + |d|);
    TakesBoth(p, log, d, base, r, log, x + [CR], r.(state := ChunkSizeAlmostDone), log);
  }

  // ---- A chunk ----------------------------------------------------------------------------------

  lemma DataTaken(p: Parser, log: seq<Event>, data: seq<byte>, base: nat)
    requires p.state == ChunkData && data != [] && p.contentLength == |data|
    ensures Takes(p, log, data, base, p.(state := ChunkDataAlmostDone, contentLength := 0),
                  Emit(log, Body(base, base + |data|)))
  {
    hide Process;
    hide Emit;
    BulkChunk(p, log, data, base, |data|);
    assert data[|data|..] == [];
    ProcessNone(p.(state := ChunkDataAlmostDone, contentLength := 0), Emit(log, Body(base, base + |data|)), base + |data|);
  }

  /** The two bytes between the data of a chunk and the next one. */
  lemma DataEnds(p: Parser, log: seq<Event>, base: nat)
    requires p.state == ChunkDataAlmostDone
    ensures Takes(p, log, CRLF, base, p.(state := ChunkSizeStart), log)
  {
    hide Takes;
    var q := p.(state := ChunkDataDone);
    QuietStep(p, q, log, CR, base);
    QuietStep(q, p.(state := ChunkSizeStart), log, LF, base + 1);
    TakesBoth(p, log, [CR], base, q, log, [LF], p.(state := ChunkSizeStart), log);
    assert CRLF == [CR] + [LF];
  }

  /** The size line of a chunk opens its data. */
  lemma SizeWireRun(p: Parser, log: seq<Event>, c: Chunk, base: nat)
    requires p.state == ChunkSizeStart && WellFormed(c)
    ensures Takes(p, log, SizeWire(c.digits, c.extension), base, p.(state := ChunkData, contentLength := |c.data|), log)
  {
    hide Takes;
    hide SizeLine;
    var size := c.digits + (c.extension + [CR]);
    var q := p.(state := ChunkSizeAlmostDone, contentLength := |c.data|);
    SizeRun(p, log, c.digits, c.extension, |c.data|, base);
    QuietStep(q, q.(state := ChunkData), log, LF, base + |size|);
    TakesBoth(p, log, size, base, q, log, [LF], q.(state := ChunkData), log);
    assert size + [LF] == SizeWire(c.digits, c.extension);
  }

  /** A whole chunk hands over its data in one piece and leaves the parser in front of the next one. */
  lemma ChunkRun(p: Parser, log: seq<Event>, c: Chunk, base: nat)
    requires p.state == ChunkSizeStart && WellFormed(c)
    ensures var from := base + |SizeWire(c.digits, c.extension)|;
            Takes(p, log, ChunkWire(c), base, p.(contentLength := 0), Emit(log, Body(from, from + |c.data|)))
  {
    hide Takes;
    hide Emit;
    hide SizeWire;
    hide SizeLine;
    var size := SizeWire(c.digits, c.extension);
    var from := base + |size|;
    var q, r := p.(state := ChunkData, contentLength := |c.data|), p.(state := ChunkDataAlmostDone, contentLength := 0);
    var next := Emit(log, Body(from, from + |c.data|));
    SizeWireRun(p, log, c, base);
    DataTaken(q, log, c.data, from);
    TakesBoth(p, log, size, base, q, log, c.data, r, next);
    DataEnds(r, next, from + |c.data|);
    TakesBoth(p, log, size + c.data, base, r, next, CRLF, p.(contentLength := 0), next);
  }

  // ---- All the chunks ---------------------------------------------------------------------------

  function Between(p: Parser, cs: seq<Chunk>): Parser {
    if cs == [] then p else p.(contentLength := 0)
  }

  lemma {:induction false} ChunksRun(p: Parser, log: seq<Event>, cs: seq<Chunk>, base: nat)
    requires p.state == ChunkSizeStart && AllWellFormed(cs)
    ensures Takes(p, log, ChunksWire(cs), base, Between(p, cs), EmitAll(log, Pieces(cs, base)))
    decreases |cs|
  {
    hide Takes;
    hide Emit;
    hide EmitAll;
    hide WellFormed;
    hide ChunkWire;
    hide SizeWire;
    if cs == [] {
      TakesNone(p, log, base);
      EmitNone(log);
    } else {
      var from := base + |SizeWire(cs[0].digits, cs[0].extension)|;
      var piece, q := Body(from, from + |cs[0].data|), p.(contentLength := 0);
      ChunkRun(p, log, cs[0], base);
      ChunksRun(q, Emit(log, piece), cs[1..], base + |ChunkWire(cs[0])|);
      TakesBoth(p, log, ChunkWire(cs[0]), base, q, Emit(log, piece), ChunksWire(cs[1..]), Between(q, cs[1..]),
                EmitAll(Emit(log, piece), Pieces(cs[1..], base + |ChunkWire(cs[0])|)));
      EmitOne(log, piece);
      EmitAllConcat(log, [piece], Pieces(cs[1..], base + |ChunkWire(cs[0])|));
    }
  }

  /** The parser behind the last size line, which opens the trailers. */
  function Trailing(p: Parser): Parser {
    p.(contentLength := 0, flags := p.flags.(trailing := true))
  }

  lemma TrailersOpen(p: Parser, log: seq<Event>, base: nat)
    requires p.state == ChunkSizeAlmostDone && p.contentLength == 0
    ensures Takes(p, log, [LF], base, Trailing(p).(state := HeaderFieldStart), Emit(log, Line(Seen(Trailing(p)))))
  {
    hide StepByte;
    hide Seen;
    hide Takes;
    hide Emit;
    ChunkStep(p, LF, base);
    TakesOne(p, log, LF, base);
    EmitOne(log, Line(Seen(Trailing(p))));
    assert [] + [Line(Seen(Trailing(p)))] == [Line(Seen(Trailing(p)))];
  }

  lemma TrailersLast(p: Parser, base: nat)
    requires p.state == HeadersAlmostDone && p.flags.trailing
    ensures StepByte(p, LF, base) == Step(p.(state := StartState(p.kind)), [MessageComplete(Seen(p))], Complete)
  {
    hide Seen;
    assert [] + [MessageComplete(Seen(p))] == [MessageComplete(Seen(p))];
  }

  /** The line feed of the empty line that ends the message, whatever comes behind it. */
  lemma LineFeedEnds(p: Parser, log: seq<Event>, rest: seq<byte>, base: nat)
    requires p.state == HeadersAlmostDone && p.flags.trailing
    ensures Process(p, log, [LF] + rest, base) ==
            Call(p.(state := StartState(p.kind)), log + [MessageComplete(Seen(p))], 1, Complete)
  {
    hide StepByte;
    hide Seen;
    hide EmitAll;
    hide Process;
    TrailersLast(p, base);
    ProcessStep(p, log, [LF] + rest, base);
    EmitQuiet(log, MessageComplete(Seen(p)));
  }

  /** The empty line that ends the message. */
  lemma MessageEnds(p: Parser, log: seq<Event>, rest: seq<byte>, base: nat)
    requires AtLineStart(p) && p.flags.trailing
    ensures Process(p, log, CRLF + rest, base) ==
            Call(p.(state := StartState(p.kind)), log + [MessageComplete(Seen(p))], 2, Complete)
  {
    hide Process;
    hide Takes;
    hide Seen;
    hide AtLineStart;
    EmptyLineTaken(p, log, base);
    LineFeedEnds(AtEmptyLine(p), log, rest, base + 1);
    SeenState(p, HeadersAlmostDone);
    TakenFirst(p, log, [CR], base, AtEmptyLine(p), log, [LF] + rest);
    assert CRLF + rest == [CR] + ([LF] + rest);
  }

  lemma SeenState(p: Parser, s: State)
    ensures Seen(p.(state := s)) == Seen(p)
  {
  }

  /** The last size line, of size zero. */
  lemma LastRun(p: Parser, log: seq<Event>, last: Chunk, base: nat)
    requires p.state == ChunkSizeStart && SizeLine(last.digits, last.extension, 0)
    ensures Takes(p, log, SizeWire(last.digits, last.extension), base, Trailing(p).(state := HeaderFieldStart),
                  Emit(log, Line(Seen(Trailing(p)))))
  {
    hide Takes;
    hide Emit;
    hide Seen;
    hide SizeLine;
    var size := last.digits + (last.extension + [CR]);
    var q := p.(state := ChunkSizeAlmostDone, contentLength := 0);
    SizeRun(p, log, last.digits, last.extension, 0, base);
    TrailersOpen(q, log, base + |size|);
    SeenState(Trailing(p), ChunkSizeAlmostDone);
    TakesBoth(p, log, size, base, q, log, [LF], Trailing(p).(state := HeaderFieldStart),
              Emit(log, Line(Seen(Trailing(p)))));
    assert size + [LF] == SizeWire(last.digits, last.extension);
  }

  // ---- The bytes handed over --------------------------------------------------------------------

  /** The bytes of a stream from base on that calls for a body hand over. */
  function Handed(es: seq<Event>, stream: seq<byte>, base: nat): seq<byte> {
    if es == [] then []
    else
      var rest := Handed(es[1..], stream, base);
      match es[0]
      case Body(from, to) => if base <= from <= to <= base + |stream| then stream[from - base..to - base] + rest else rest
      case _ => rest
  }

  lemma Middle(a: seq<byte>, b: seq<byte>, c: seq<byte>)
    ensures (a + b + c)[|a|..|a| + |b|] == b
  {
  }

  /** A chunk within a stream: its data, and the stream with the chunk put to what comes before. */
  lemma ChunkWithin(c: Chunk, before: seq<byte>, others: seq<byte>, after: seq<byte>)
    ensures var stream, from := before + (ChunkWire(c) + others) + after, |before| + |SizeWire(c.digits, c.extension)|;
            && stream == (before + ChunkWire(c)) + others + after
            && from + |c.data| <= |stream| && stream[from..from + |c.data|] == c.data
  {
    hide SizeWire;
    var size := SizeWire(c.digits, c.extension);
    var stream := before + (ChunkWire(c) + others) + after;
    assert stream == (before + size) + c.data + (CRLF + others + after);
    Middle(before + size, c.data, CRLF + others + after);
  }

  lemma HandedBody(from: nat, to: nat, es: seq<Event>, stream: seq<byte>, base: nat)
    requires base <= from <= to <= base + |stream|
    ensures Handed([Body(from, to)] + es, stream, base) == stream[from - base..to - base] + Handed(es, stream, base)
  {
    assert ([Body(from, to)] + es)[1..] == es;
  }

  lemma {:induction false} PiecesAreData(cs: seq<Chunk>, before: seq<byte>, after: seq<byte>, base: nat)
    ensures Handed(Pieces(cs, base + |before|), before + ChunksWire(cs) + after, base) == Data(cs)
    decreases |cs|
  {
    hide SizeWire;
    hide ChunkWire;
    if cs != [] {
      HandedFirst(cs, before, after, base);
      PiecesAreData(cs[1..], before + ChunkWire(cs[0]), after, base);
    }
  }

  lemma HandedFirst(cs: seq<Chunk>, before: seq<byte>, after: seq<byte>, base: nat)
    requires cs != []
    ensures var next := before + ChunkWire(cs[0]);
            Handed(Pieces(cs, base + |before|), before + ChunksWire(cs) + after, base) ==
            cs[0].data + Handed(Pieces(cs[1..], base + |next|), next + ChunksWire(cs[1..]) + after, base)
  {
    hide Handed;
    hide SizeWire;
    hide ChunkWire;
    var from := base + |before| + |SizeWire(cs[0].digits, cs[0].extension)|;
    ChunkWithin(cs[0], before, ChunksWire(cs[1..]), after);
    HandedBody(from, from + |cs[0].data|, Pieces(cs[1..], base + |before + ChunkWire(cs[0])|),
               before + ChunksWire(cs) + after, base);
  }

  lemma {:induction false} HandedConcat(a: seq<Event>, b: seq<Event>, stream: seq<byte>, base: nat)
    ensures Handed(a + b, stream, base) == Handed(a, stream, base) + Handed(b, stream, base)
    decreases |a|
  {
    if a == [] {
      assert a + b == b;
    } else {
      assert (a + b)[0] == a[0] && (a + b)[1..] == a[1..] + b;
      HandedConcat(a[1..], b, stream, base);
    }
  }

  /** The pieces of different chunks are apart: they are handed over one by one. */
  lemma {:induction false} PiecesStayApart(log: seq<Event>, cs: seq<Chunk>, base: nat)
    requires log != [] && log[|log| - 1].Body? ==> log[|log| - 1].to < base
    requires AllWellFormed(cs)
    ensures EmitAll(log, Pieces(cs, base)) == log + Pieces(cs, base)
    decreases |cs|
  {
    hide EmitAll;
    if cs == [] {
      EmitNone(log);
    } else {
      var from := base + |SizeWire(cs[0].digits, cs[0].extension)|;
      var piece := Body(from, from + |cs[0].data|);
      var rest := Pieces(cs[1..], base + |ChunkWire(cs[0])|);
      EmitOne(log, piece);
      EmitAllConcat(log, [piece], rest);
      PiecesStayApart(log + [piece], cs[1..], base + |ChunkWire(cs[0])|);
      assert log + [piece] + rest == log + ([piece] + rest);
    }
  }

  // ---- The main results -------------------------------------------------------------------------

  /** The parser in front of the trailers, and what it comes to know behind them. */
  function AtTrailers(p: Parser): Parser {
    Trailing(p).(state := HeaderFieldStart)
  }

  function TrailersSaid(p: Parser, trailers: seq<Header>): Meaning {
    EffectAll(trailers, MeaningOf(Trailing(p)))
  }

  function TrailerCalls(p: Parser, trailers: seq<Header>, base: nat): seq<Event> {
    HeadersCalls(Trailing(p), trailers, base) + [MessageComplete(Seen(Told(Trailing(p), TrailersSaid(p, trailers))))]
  }

  /** The calls made for a chunked body whose wire form starts at base. */
  function ChunkedCalls(p: Parser, c: Coding, base: nat): seq<Event> {
    Pieces(c.chunks, base) + [Line(Seen(Trailing(p)))] + TrailerCalls(p, c.trailers, base + |ChunkLines(c)|)
  }

  /** Everything up to the trailers. */
  lemma UpToTrailers(p: Parser, log: seq<Event>, c: Coding, base: nat)
    requires p.state == ChunkSizeStart && AllWellFormed(c.chunks) && SizeLine(c.last.digits, c.last.extension, 0)
    requires log != [] ==> !log[|log| - 1].Body?
    ensures Takes(p, log, ChunkLines(c), base, AtTrailers(p), log + Pieces(c.chunks, base) + [Line(Seen(Trailing(p)))])
  {
    hide Takes;
    hide SizeLine;
    hide SizeWire;
    hide WellFormed;
    hide EmitAll;
    hide Seen;
    hide ChunksWire;
    hide Pieces;
    var cs, last := c.chunks, c.last;
    var chunks, pieces, line := ChunksWire(cs), log + Pieces(cs, base), Line(Seen(Trailing(p)));
    ChunksRun(p, log, cs, base);
    PiecesStayApart(log, cs, base);
    LastRun(Between(p, cs), pieces, last, base + |chunks|);
    TakesBoth(p, log, chunks, base, Between(p, cs), pieces, SizeWire(last.digits, last.extension),
              AtTrailers(p), Emit(pieces, line));
  }

  lemma TrailersFacts(p: Parser, trailers: seq<Header>)
    requires p.fieldMark == None && p.valueMark == None
    ensures AtLineStart(AtTrailers(p)) && MeaningOf(AtTrailers(p)) == MeaningOf(Trailing(p))
    ensures Alike(Trailing(p), AtTrailers(p)) && TrailersSaid(p, trailers).flags.trailing
  {
    FlagsSaid(trailers, MeaningOf(Trailing(p)));
  }

  lemma TrailersTold(p: Parser, q: Parser, m: Meaning)
    requires Behind(AtTrailers(p), q, m) && m.flags.trailing
    ensures AtLineStart(q) && q.flags.trailing && q.kind == p.kind && Seen(q) == Seen(Told(Trailing(p), m))
  {
    SeenAnywhere(q, Told(Trailing(p), m));
  }

  lemma TrailerCallsAre(p: Parser, trailers: seq<Header>, log: seq<Event>, base: nat)
    ensures log + TrailerCalls(p, trailers, base) ==
            log + HeadersCalls(Trailing(p), trailers, base)
            + [MessageComplete(Seen(Told(Trailing(p), TrailersSaid(p, trailers))))]
  {
    hide Seen;
    hide HeadersCalls;
    hide Trailing;
  }

  /** The trailers, and the empty line behind them. */
  lemma TrailersEnd(p: Parser, log: seq<Event>, trailers: seq<Header>, rest: seq<byte>, base: nat) returns (q: Parser)
    requires p.fieldMark == None && p.valueMark == None && AllHeadersOk(trailers)
    ensures Behind(AtTrailers(p), q, TrailersSaid(p, trailers)) && q.kind == p.kind
    ensures Process(AtTrailers(p), log, HeadersWire(trailers) + (CRLF + rest), base) ==
            Call(q.(state := StartState(p.kind)), log + TrailerCalls(p, trailers, base), |HeadersWire(trailers)| + 2, Complete)
  {
    hide *;
    var start, wire := AtTrailers(p), HeadersWire(trailers);
    TrailersFacts(p, trailers);
    TrailersSaidIs(p, trailers);
    TrailerCallsAre(p, trailers, log, base);
    HeadersCallsAlike(Trailing(p), start, trailers, base);
    var next := log + HeadersCalls(Trailing(p), trailers, base);
    q := HeadersTaken(start, log, trailers, base);
    TrailersTold(p, q, TrailersSaid(p, trailers));
    MessageEnds(q, next, rest, base + |wire|);
    TakenFirst(start, log, wire, base, q, next, CRLF + rest);
    LaterIs(|wire|, Process(q, next, CRLF + rest, base + |wire|));
  }

  lemma TrailersSaidIs(p: Parser, trailers: seq<Header>)
    ensures TrailersSaid(p, trailers) == EffectAll(trailers, MeaningOf(Trailing(p)))
  {
  }

  lemma WireIs(c: Coding, rest: seq<byte>)
    ensures Wire(c) + rest == ChunkLines(c) + (HeadersWire(c.trailers) + (CRLF + rest))
    ensures |Wire(c)| == |ChunkLines(c)| + (|HeadersWire(c.trailers)| + 2)
  {
    hide ChunkLines;
    hide HeadersWire;
  }

  lemma ChunkedCallsAre(p: Parser, c: Coding, log: seq<Event>, base: nat)
    ensures log + ChunkedCalls(p, c, base) ==
            log + Pieces(c.chunks, base) + [Line(Seen(Trailing(p)))] + TrailerCalls(p, c.trailers, base + |ChunkLines(c)|)
  {
    hide ChunkLines;
    hide TrailerCalls;
    hide Pieces;
    hide Seen;
    hide Trailing;
  }

  /** The calls look at what handlers may see of the parser, and no more. */
  lemma ChunkedCallsAlike(p: Parser, q: Parser, c: Coding, base: nat)
    requires Alike(p, q)
    ensures ChunkedCalls(q, c, base) == ChunkedCalls(p, c, base)
  {
    hide Seen;
    hide Pieces;
    hide HeadersCalls;
    hide ChunkLines;
    hide EffectAll;
    var a, b, m := Trailing(p), Trailing(q), TrailersSaid(p, c.trailers);
    SeenAnywhere(a, b);
    SeenAnywhere(Told(a, m), Told(b, m));
    HeadersCallsAlike(a, b, c.trailers, base + |ChunkLines(c)|);
  }

  lemma CodingFacts(c: Coding)
    requires CodingOk(c)
    ensures AllWellFormed(c.chunks) && SizeLine(c.last.digits, c.last.extension, 0) && AllHeadersOk(c.trailers)
  {
  }

  /**
   * A call on the wire form of a chunked body, whatever follows it, consumes exactly the wire form,
   * completes the message once and hands over each chunk and each trailer.
   */
  lemma ChunkedBody(p: Parser, log: seq<Event>, c: Coding, rest: seq<byte>, base: nat) returns (q: Parser)
    requires p.state == ChunkSizeStart && p.fieldMark == None && p.valueMark == None && CodingOk(c)
    requires log != [] ==> !log[|log| - 1].Body?
    ensures Behind(AtTrailers(p), q, TrailersSaid(p, c.trailers)) && q.kind == p.kind
    ensures Process(p, log, Wire(c) + rest, base) ==
            Call(q.(state := StartState(p.kind)), log + ChunkedCalls(p, c, base), |Wire(c)|, Complete)
  {
    hide *;
    var lines, tail := ChunkLines(c), HeadersWire(c.trailers) + (CRLF + rest);
    var before := log + Pieces(c.chunks, base) + [Line(Seen(Trailing(p)))];
    CodingFacts(c);
    WireIs(c, rest);
    ChunkedCallsAre(p, c, log, base);
    UpToTrailers(p, log, c, base);
    q := TrailersEnd(p, before, c.trailers, rest, base + |lines|);
    TakenFirst(p, log, lines, base, AtTrailers(p), before, tail);
    LaterIs(|lines|, Process(AtTrailers(p), before, tail, base + |lines|));
  }

  lemma {:induction false} HandedQuiet(es: seq<Event>, stream: seq<byte>, base: nat)
    requires forall i :: 0 <= i < |es| ==> !es[i].Body?
    ensures Handed(es, stream, base) == []
    decreases |es|
  {
    if es != [] { HandedQuiet(es[1..], stream, base); }
  }

  lemma {:induction false} TrailersQuiet(p: Parser, hs: seq<Header>, base: nat)
    ensures forall i :: 0 <= i < |HeadersCalls(p, hs, base)| ==> !HeadersCalls(p, hs, base)[i].Body?
    decreases |hs|
  {
    hide Effect;
    hide Seen;
    hide HeaderWire;
    if hs != [] { TrailersQuiet(Told(p, Effect(hs[0], MeaningOf(p))), hs[1..], base + |HeaderWire(hs[0])|); }
  }

  /** What those calls hand over is the data of the chunks, in order. */
  lemma ChunkedData(p: Parser, c: Coding, rest: seq<byte>, base: nat)
    ensures Handed(ChunkedCalls(p, c, base), Wire(c) + rest, base) == Data(c.chunks)
  {
    hide SizeWire;
    hide ChunksWire;
    hide Seen;
    hide Pieces;
    hide Handed;
    hide HeadersCalls;
    hide HeadersWire;
    hide TrailersSaid;
    var stream, at := Wire(c) + rest, base + |ChunkLines(c)|;
    var tail := SizeWire(c.last.digits, c.last.extension) + (HeadersWire(c.trailers) + CRLF) + rest;
    PiecesAreData(c.chunks, [], tail, base);
    assert [] + ChunksWire(c.chunks) + tail == stream;
    var quiet := [Line(Seen(Trailing(p)))] + TrailerCalls(p, c.trailers, at);
    assert ChunkedCalls(p, c, base) == Pieces(c.chunks, base) + quiet;
    HandedConcat(Pieces(c.chunks, base), quiet, stream, base);
    TrailersQuiet(Trailing(p), c.trailers, at);
    HandedQuiet(quiet, stream, base);
  }

  /** A connection comes to the same however the wire form was cut into parts. */
  lemma ChunkedInParts(p: Parser, log: seq<Event>, c: Coding, parts: seq<seq<byte>>, base: nat)
    requires p.state == ChunkSizeStart && p.fieldMark == None && p.valueMark == None && CodingOk(c)
    requires log != [] ==> !log[|log| - 1].Body?
    requires Concat(parts) == Wire(c)
    ensures var s := FeedEach(Stream(p, log, base, Reading), parts);
            s == Stream(Reset(s.p), log + ChunkedCalls(p, c, base), base + |Wire(c)|, Reading)
  {
    hide Process;
    hide CodingOk;
    hide Wire;
    hide ChunkedCalls;
    hide Behind;
    hide AtTrailers;
    hide TrailersSaid;
    var wire := Wire(c);
    PartsDoNotMatter(Stream(p, log, base, Reading), parts);
    var q := ChunkedBody(p, log, c, [], base);
    assert wire + [] == wire && wire[..|wire|] == wire;
    CallIsFeed(p, log, wire, base);
  }

  // ---- Which size lines are taken ---------------------------------------------------------------

  /** The length of the run of digits, by the table of the source, that a line starts with. */
  function Run(s: seq<byte>): (k: nat)
    ensures k <= |s| && HexDigits(s[..k]) && (k < |s| ==> !IsHex(s[k]))
  {
    if s == [] || !IsHex(s[0]) then 0 else
      var k := Run(s[1..]);
      assert s[..k + 1] == [s[0]] + s[1..][..k];
      k + 1
  }

  /** The parser takes a line for a size of v. */
  ghost predicate TakenAs(p: Parser, log: seq<Event>, s: seq<byte>, base: nat, v: int) {
    Takes(p, log, s + [CR], base, p.(state := ChunkSizeAlmostDone, contentLength := v), log)
  }

  lemma RunStep(s: seq<byte>, v: nat)
    requires s != [] && IsHex(s[0])
    ensures Unhex(s[0]) >= 0 && Run(s) == Run(s[1..]) + 1 && s[Run(s)..] == s[1..][Run(s[1..])..]
    ensures HexFrom(v, s[..Run(s)]) == HexFrom(v * 16 + Unhex(s[0]), s[1..][..Run(s[1..])])
  {
    HexRange(s[0]);
    assert s[..Run(s)] == [s[0]] + s[1..][..Run(s[1..])];
  }

  lemma RunEnds(s: seq<byte>, v: nat)
    requires s == [] || !IsHex(s[0])
    ensures Run(s) == 0 && s[..Run(s)] == [] && s[Run(s)..] == s && HexFrom(v, s[..Run(s)]) == v
  {
  }

  lemma DigitStep(p: Parser, b: byte, base: nat)
    requires p.state == ChunkSize && b != CR
    ensures StepChunk(p, b, base) ==
            if IsHex(b) then LengthDigit(p, 16, Unhex(b))
            else if b == Ch(';') || b == Ch(' ') then Go(p.(state := ChunkParameters))
            else Fail(p)
  {
    if IsHex(b) { HexRange(b); }
  }

  lemma StopsAt(p: Parser, log: seq<Event>, data: seq<byte>, base: nat)
    requires GroupOf(p.state) == Chunks && data != [] && StepChunk(p, data[0], base).status != Reading
    ensures Process(p, log, data, base).status == StepChunk(p, data[0], base).status
  {
    hide StepChunk;
    hide StepByte;
    hide Process;
    hide EmitAll;
    ChunkStep(p, data[0], base);
    ProcessStep(p, log, data, base);
  }

  /** The rest of a size line of which digits of value v were read: every outcome. */
  lemma {:induction false} RestOfLine(p: Parser, log: seq<Event>, s: seq<byte>, base: nat)
    requires p.state == ChunkSize && 0 <= p.contentLength <= INT_MAX && forall i :: 0 <= i < |s| ==> s[i] != CR
    ensures var k := Run(s);
            var v := HexFrom(p.contentLength, s[..k]);
            if v > INT_MAX then Process(p, log, s + [CR], base).status == Overflowed
            else if !IsExtension(s[k..]) then Process(p, log, s + [CR], base).status == Failed
            else TakenAs(p, log, s, base, v)
    decreases |s|
  {
    hide Takes;
    hide Process;
    hide StepChunk;
    hide Unhex;
    hide HexFrom;
    hide Run;
    hide HexDigits;
    var v := p.contentLength;
    if s == [] || !IsHex(s[0]) {
      RunEnds(s, v);
      if IsExtension(s) {
        ExtensionRun(p, log, s, base);
      } else {
        DigitStep(p, s[0], base);
        StopsAt(p, log, s + [CR], base);
      }
    } else {
      RunStep(s, v);
      DigitStep(p, s[0], base);
      var q := p.(contentLength := v * 16 + Unhex(s[0]));
      assert s + [CR] == [s[0]] + (s[1..] + [CR]);
      if q.contentLength > INT_MAX {
        StopsAt(p, log, s + [CR], base);
      } else {
        QuietStep(p, q, log, s[0], base);
        RestOfLine(q, log, s[1..], base + 1);
        TakenFirst(p, log, [s[0]], base, q, log, s[1..] + [CR]);
        var size := HexFrom(v, s[..Run(s)]);
        if size <= INT_MAX && IsExtension(s[Run(s)..]) {
          TakesBoth(p, log, [s[0]], base, q, log, s[1..] + [CR], q.(state := ChunkSizeAlmostDone, contentLength := size), log);
        }
      }
    }
  }

  /** Every size line up to its carriage return, and every outcome. */
  lemma SizeLineRead(p: Parser, log: seq<Event>, s: seq<byte>, base: nat)
    requires p.state == ChunkSizeStart && forall i :: 0 <= i < |s| ==> s[i] != CR
    ensures var k := Run(s);
            var v := HexFrom(0, s[..k]);
            if k == 0 then Process(p, log, s + [CR], base).status == Failed
            else if v > INT_MAX then Process(p, log, s + [CR], base).status == Overflowed
            else if !IsExtension(s[k..]) then Process(p, log, s + [CR], base).status == Failed
            else TakenAs(p, log, s, base, v)
  {
    hide Takes;
    hide Process;
    hide StepChunk;
    hide Unhex;
    hide HexFrom;
    hide Run;
    hide HexDigits;
    if s == [] || !IsHex(s[0]) {
      RunEnds(s, 0);
      LineEndRefused();
      FirstRefused(p, (s + [CR])[0], base);
      StopsAt(p, log, s + [CR], base);
    } else {
      RunStep(s, 0);
      FirstDigitStep(p, s[0], base);
      HexRange(s[0]);
      var q := p.(state := ChunkSize, contentLength := Unhex(s[0]));
      var v := HexFrom(0, s[..Run(s)]);
      assert s + [CR] == [s[0]] + (s[1..] + [CR]);
      QuietStep(p, q, log, s[0], base);
      RestOfLine(q, log, s[1..], base + 1);
      TakenFirst(p, log, [s[0]], base, q, log, s[1..] + [CR]);
      if v <= INT_MAX && IsExtension(s[Run(s)..]) {
        TakesBoth(p, log, [s[0]], base, q, log, s[1..] + [CR], q.(state := ChunkSizeAlmostDone, contentLength := v), log);
      }
    }
  }

  lemma FirstRefused(p: Parser, b: byte, base: nat)
    requires p.state == ChunkSizeStart && !IsHex(b)
    ensures StepChunk(p, b, base) == Fail(p)
  {
  }

  lemma LineEndRefused()
    ensures !IsHex(CR)
  {
  }

  lemma TakenOnce(p: Parser, log: seq<Event>, s: seq<byte>, base: nat, v: int, w: int)
    requires TakenAs(p, log, s, base, v)
    ensures Process(p, log, s + [CR], base).status == Reading
    ensures TakenAs(p, log, s, base, w) ==> w == v
  {
    hide Process;
  }

  /**
   * A line is taken for a size exactly when it is a run of digits, not empty and as long as it can be, that
   * comes to this size within the int, and then nothing or what starts with a semicolon or a space. By the
   * table of the source the bytes above 127 are digits.
   */
  lemma SizeLineExact(p: Parser, log: seq<Event>, s: seq<byte>, v: nat, base: nat)
    requires p.state == ChunkSizeStart && forall i :: 0 <= i < |s| ==> s[i] != CR
    ensures TakenAs(p, log, s, base, v) <==> SizeLine(s[..Run(s)], s[Run(s)..], v)
    ensures Process(p, log, s + [CR], base).status == Reading <==>
            SizeLine(s[..Run(s)], s[Run(s)..], HexFrom(0, s[..Run(s)]))
  {
    hide TakenAs;
    hide Process;
    hide HexFrom;
    hide Run;
    hide HexDigits;
    SizeLineRead(p, log, s, base);
    ExtensionTail(s, Run(s));
    if TakenAs(p, log, s, base, v) {
      TakenOnce(p, log, s, base, v, HexFrom(0, s[..Run(s)]));
    }
    if SizeLine(s[..Run(s)], s[Run(s)..], HexFrom(0, s[..Run(s)])) {
      TakenOnce(p, log, s, base, HexFrom(0, s[..Run(s)]), v);
    }
  }

  lemma ExtensionTail(s: seq<byte>, k: nat)
    requires k <= |s|
    ensures s[..k] == [] <==> k == 0
  {
  }

  // ---- The size lines of the standard -----------------------------------------------------------

  /** HEXDIG of RFC 5234, with the small letters that it stands for as well. */
  predicate IsHexDigit(b: byte) {
    IsNum(b) || Ch('A') <= b <= Ch('F') || Ch('a') <= b <= Ch('f')
  }

  predicate StandardDigits(d: seq<byte>) {
    d != [] && forall i :: 0 <= i < |d| ==> IsHexDigit(d[i])
  }

  lemma {:induction false} StandardAreDigits(d: seq<byte>)
    requires forall i :: 0 <= i < |d| ==> IsHexDigit(d[i])
    ensures HexDigits(d)
  {
  }

  /** A line of the standard: a chunk-size of value v, and then nothing or what its extensions may start with. */
  ghost predicate StandardLine(s: seq<byte>, v: nat) {
    exists k: nat ::
      && k <= |s| && StandardDigits(s[..k]) && IsExtension(s[k..])
      && (StandardAreDigits(s[..k]); HexFrom(0, s[..k])) == v
  }

  predicate NoHighBits(d: seq<byte>) {
    forall i :: 0 <= i < |d| ==> d[i] < 128
  }

  lemma DigitOrHigh(b: byte)
    ensures IsHex(b) <==> IsHexDigit(b) || b >= 128
    ensures IsHexDigit(b) ==> b < 128 && b != Ch(';') && b != Ch(' ')
  {
  }

  /** The run of digits of a line of the standard is its chunk-size. */
  lemma StandardRun(s: seq<byte>, k: nat)
    requires k <= |s| && StandardDigits(s[..k]) && IsExtension(s[k..])
    ensures Run(s) == k
  {
    hide IsHex;
    hide IsHexDigit;
    if k < |s| {
      assert s[k] == s[k..][0];
      DigitOrHigh(s[k]);
    }
    if Run(s) < k {
      assert s[..k][Run(s)] == s[Run(s)];
      DigitOrHigh(s[Run(s)]);
    }
  }

  /**
   * The code takes a line for the size that the standard gives it, as far as the int holds it, exactly when
   * no byte of its run of digits has its high bit set.
   */
  lemma StandardExact(p: Parser, log: seq<Event>, s: seq<byte>, v: nat, base: nat)
    requires p.state == ChunkSizeStart && forall i :: 0 <= i < |s| ==> s[i] != CR
    ensures StandardLine(s, v) && v <= INT_MAX <==> TakenAs(p, log, s, base, v) && NoHighBits(s[..Run(s)])
  {
    hide TakenAs;
    hide HexFrom;
    hide Run;
    hide IsHex;
    hide IsHexDigit;
    hide IsExtension;
    SizeLineExact(p, log, s, v, base);
    if StandardLine(s, v) {
      var k: nat :| k <= |s| && StandardDigits(s[..k]) && IsExtension(s[k..])
                    && (StandardAreDigits(s[..k]); HexFrom(0, s[..k])) == v;
      StandardRun(s, k);
      forall i | 0 <= i < k ensures s[..k][i] < 128 { DigitOrHigh(s[..k][i]); }
    }
    if SizeLine(s[..Run(s)], s[Run(s)..], v) && NoHighBits(s[..Run(s)]) {
      var k := Run(s);
      forall i | 0 <= i < k ensures IsHexDigit(s[..k][i]) { DigitOrHigh(s[..k][i]); }
      assert StandardDigits(s[..k]);
    }
  }

  /** A byte above 127 as a size: the body is over, and the standard knows no such line. */
  lemma HighBitsTaken(p: Parser, log: seq<Event>, v: nat, base: nat)
    requires p.state == ChunkSizeStart && p.fieldMark == None && p.valueMark == None
    requires log != [] ==> !log[|log| - 1].Body?
    ensures var c := Process(p, log, [0x80, CR, LF, CR, LF], base);
            && c.status == Complete && c.consumed == 5
            && c.log == log + [Line(Seen(Trailing(p))), MessageComplete(Seen(Trailing(p)))]
    ensures !StandardLine([0x80], v)
  {
    hide Process;
    hide Seen;
    var coding := Coding([], Chunk([0x80], [], []), []);
    assert HexFrom(0, [0x80]) == 0;
    var q := ChunkedBody(p, log, coding, [], base);
    assert Wire(coding) + [] == [0x80, CR, LF, CR, LF];
    assert Told(Trailing(p), TrailersSaid(p, [])) == Trailing(p);
    assert !IsHexDigit([0x80][0]);
  }
}
