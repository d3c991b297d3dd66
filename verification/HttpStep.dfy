/**
 * One byte through the HTTP/1.1 parser: the branches of its switch, one function a group of states.
 * The checks that only a strict build makes are not made. A length that leaves the int it is kept in
 * stops the parse: what the source would do from there on is not defined.
 */
module HttpStep {
  import opened Common
  import opened HttpTypes

  /**
   * Reading: the next byte may follow. Complete: the message is over and the call ends in front of
   * the next byte. Switched: the connection has been handed to another protocol.
   */
  datatype Status = Reading | Complete | Failed | Switched | Overflowed

  datatype Step = Step(p: Parser, events: seq<Event>, status: Status)

  function Go(p: Parser): Step {
    Step(p, [], Reading)
  }

  function Fail(p: Parser): Step {
    Step(p, [], Failed)
  }

  function To(p: Parser, s: State): Step {
    Go(p.(state := s))
  }

  /** The message is over: the last call, and back to the start. */
  function Finish(p: Parser, events: seq<Event>): Step {
    Step(p.(state := StartState(p.kind)), events + [MessageComplete(Seen(p))], Complete)
  }

  /** The end of the request or status line. */
  function LineDone(p: Parser, events: seq<Event>): Step {
    Step(p.(state := HeaderFieldStart), events + [Line(Seen(p))], Reading)
  }

  function UrlCall(p: Parser, pos: nat): seq<Event> {
    match p.urlMark
    case None => []
    case Some(m) => [Url(m, pos, Seen(p))]
  }

  function FieldCall(p: Parser, pos: nat): seq<Event> {
    match p.fieldMark
    case None => []
    case Some(m) => [FieldName(m, pos, Seen(p))]
  }

  function ValueCall(p: Parser, pos: nat): seq<Event> {
    match p.valueMark
    case None => []
    case Some(m) => [FieldValue(m, pos, Seen(p))]
  }

  // ---- The start of a message -----------------------------------------------------------------

  function MessageStart(p: Parser): Parser {
    p.(flags := NO_FLAGS, contentLength := -1)
  }

  /** The first letter of a method picks the first candidate. */
  function FirstMethod(b: byte): nat {
    match b as char
    case 'C' => 6 case 'D' => 1 case 'G' => 2 case 'H' => 3 case 'L' => 10
    case 'M' => 11 case 'N' => 21 case 'O' => 7 case 'P' => 4 case 'R' => 16
    case 'S' => 22 case 'T' => 8 case 'U' => 15
    case _ => 0
  }

  function StartMethod(p: Parser, b: byte, events: seq<Event>): Step {
    var m := FirstMethod(b);
    if m == 0 then Step(p.(verb := 0, index := 1), events, Failed)
    else Step(p.(verb := m, index := 1, state := ReqMethod), events, Reading)
  }

  /** The method a byte leaves, when it continues the candidate or turns it into another one. */
  function NextMethod(m: nat, index: nat, b: byte): Option<nat> {
    if b == CharAt(MethodName(m), index) then Some(m)
    else if m == CONNECT then
      if index == 1 && b == Ch('H') then Some(18)
      else if index == 2 && b == Ch('P') then Some(9)
      else None
    else if m == MKCOL then
      if index == 1 && b == Ch('O') then Some(12)
      else if index == 1 && b == Ch('E') then Some(19)
      else if index == 1 && b == Ch('-') then Some(20)
      else if index == 2 && b == Ch('A') then Some(17)
      else None
    else if index == 1 && m == POST then
      if b == Ch('R') then Some(PROPFIND)
      else if b == Ch('U') then Some(5)
      else if b == Ch('A') then Some(24)
      else None
    else if index == 2 && m == UNLOCK && b == Ch('S') then Some(23)
    else if index == 4 && m == PROPFIND && b == Ch('P') then Some(14)
    else None
  }

  function StepMethod(p: Parser, b: byte): Step {
    if b == 0 then Fail(p)
    else if b == Ch(' ') && CharAt(MethodName(p.verb), p.index) == 0 then
      Go(p.(state := ReqSpacesBeforeUrl, index := p.index + 1))
    else
      match NextMethod(p.verb, p.index, b)
      case None => Fail(p)
      case Some(m) => Go(p.(verb := m, index := p.index + 1))
  }

  function StepStart(p: Parser, b: byte): Step {
    match p.state
    case StartReqOrRes =>
      if b == CR || b == LF then Go(p)
      else
        var q := MessageStart(p);
        if b == Ch('H') then Step(q.(state := ResOrRespH), [MessageBegin(Seen(q))], Reading)
        else StartMethod(q.(kind := Request), b, [MessageBegin(Seen(q))])
    case ResOrRespH =>
      if b == Ch('T') then To(p.(kind := Response), ResHt)
      else if b != Ch('E') then Fail(p)
      else Go(p.(kind := Request, verb := HEAD, index := 2, state := ReqMethod))
    case StartRes =>
      var q := MessageStart(p);
      if b == Ch('H') then Step(q.(state := ResH), [MessageBegin(Seen(q))], Reading)
      else if b == CR || b == LF then Step(q, [MessageBegin(Seen(q))], Reading)
      else Step(q, [MessageBegin(Seen(q))], Failed)
    case StartReq =>
      if b == CR || b == LF then Go(p)
      else
        var q := MessageStart(p);
        if !IsAlpha(b) then Step(q, [MessageBegin(Seen(q))], Failed)
        else StartMethod(q, b, [MessageBegin(Seen(q))])
    case _ => StepMethod(p, b)
  }

  // ---- The status line of a response ----------------------------------------------------------

  function StepMajor(p: Parser, b: byte, next: State): Step {
    if b == Ch('.') then To(p, next)
    else if !IsNum(b) then Fail(p)
    else
      var major := p.major * 10 + (b - Ch('0'));
      if major > 999 then Fail(p.(major := major)) else Go(p.(major := major))
  }

  /** A further digit of the minor version. */
  function MinorDigit(p: Parser, b: byte): Step {
    if !IsNum(b) then Fail(p)
    else
      var minor := p.minor * 10 + (b - Ch('0'));
      if minor > 999 then Fail(p.(minor := minor)) else Go(p.(minor := minor))
  }

  function StepStatusLine(p: Parser, b: byte): Step {
    match p.state
    case ResH => To(p, ResHt)
    case ResHt => To(p, ResHtt)
    case ResHtt => To(p, ResHttp)
    case ResHttp => To(p, ResFirstMajor)
    case ResFirstMajor =>
      if b < Ch('1') || b > Ch('9') then Fail(p) else Go(p.(major := b - Ch('0'), state := ResMajor))
    case ResMajor => StepMajor(p, b, ResFirstMinor)
    case ResFirstMinor =>
      if !IsNum(b) then Fail(p) else Go(p.(minor := b - Ch('0'), state := ResMinor))
    case ResMinor =>
      if b == Ch(' ') then To(p, ResFirstStatus) else MinorDigit(p, b)
    case ResFirstStatus =>
      if IsNum(b) then Go(p.(statusCode := b - Ch('0'), state := ResStatusCode))
      else if b == Ch(' ') then Go(p)
      else Fail(p)
    case ResStatusCode =>
      if IsNum(b) then
        var code := p.statusCode * 10 + (b - Ch('0'));
        if code > 999 then Fail(p.(statusCode := code)) else Go(p.(statusCode := code))
      else if b == Ch(' ') then To(p, ResStatus)
      else if b == CR then To(p, ResLineAlmostDone)
      else if b == LF then LineDone(p, [])
      else Fail(p)
    case ResStatus =>
      if b == CR then To(p, ResLineAlmostDone)
      else if b == LF then LineDone(p, [])
      else Go(p)
    case _ => LineDone(p, [])
  }

  // ---- The target of a request ----------------------------------------------------------------

  /** The ends of a target that a path, a query and a fragment have in common, if b is one. */
  function TargetEnd(p: Parser, b: byte, pos: nat): Option<Step> {
    var q := p.(urlMark := None);
    if b == Ch(' ') then Some(Step(q.(state := ReqHttpStart), UrlCall(p, pos), Reading))
    else if b == CR then Some(Step(q.(major := 0, minor := 9, state := ReqLineAlmostDone), UrlCall(p, pos), Reading))
    else if b == LF then Some(LineDone(q.(major := 0, minor := 9), UrlCall(p, pos)))
    else None
  }

  function StepUrl(p: Parser, b: byte, pos: nat): Step {
    match p.state
    case ReqSpacesBeforeUrl =>
      if b == Ch(' ') then Go(p)
      else if b == Ch('/') || b == Ch('*') then Go(p.(urlMark := Some(pos), state := ReqPath))
      else if IsAlpha(b) || (p.verb == CONNECT && IsNum(b)) then
        Go(p.(urlMark := Some(pos), state := if p.verb == CONNECT then ReqHost else ReqSchema))
      else Fail(p)
    case ReqSchema =>
      if IsAlpha(b) then Go(p) else if b == Ch(':') then To(p, ReqSchemaSlash) else Fail(p)
    case ReqSchemaSlash => To(p, ReqSchemaSlashSlash)
    case ReqSchemaSlashSlash => To(p, ReqHost)
    case ReqHost =>
      if IsHostChar(b) then Go(p)
      else if b == Ch(':') then To(p, ReqPort)
      else StepAuthorityEnd(p, b, pos)
    case ReqPort =>
      if IsNum(b) then Go(p) else StepAuthorityEnd(p, b, pos)
    case ReqPath =>
      if IsUrlChar(b) then Go(p)
      else if b == Ch('?') then To(p, ReqQueryStart)
      else if b == Ch('#') then To(p, ReqFragmentStart)
      else EndOrFail(p, b, pos)
    case ReqQueryStart =>
      if IsUrlChar(b) then To(p, ReqQuery)
      else if b == Ch('?') then Go(p)
      else if b == Ch('#') then To(p, ReqFragmentStart)
      else EndOrFail(p, b, pos)
    case ReqQuery =>
      if IsUrlChar(b) || b == Ch('?') then Go(p)
      else if b == Ch('#') then To(p, ReqFragmentStart)
      else EndOrFail(p, b, pos)
    case ReqFragmentStart =>
      if IsUrlChar(b) || b == Ch('?') then To(p, ReqFragment)
      else if b == Ch('#') then Go(p)
      else EndOrFail(p, b, pos)
    case _ =>
      if IsUrlChar(b) || b == Ch('?') || b == Ch('#') then Go(p)
      else EndOrFail(p, b, pos)
  }

  function EndOrFail(p: Parser, b: byte, pos: nat): Step {
    match TargetEnd(p, b, pos)
    case Some(s) => s
    case None => Fail(p)
  }

  /** What may follow a host or a port. */
  function StepAuthorityEnd(p: Parser, b: byte, pos: nat): Step {
    if b == Ch('/') then To(p, ReqPath)
    else if b == Ch('?') then To(p, ReqQueryStart)
    else if b == Ch(' ') then Step(p.(urlMark := None, state := ReqHttpStart), UrlCall(p, pos), Reading)
    else Fail(p)
  }

  // ---- The version of a request ---------------------------------------------------------------

  function StepVersion(p: Parser, b: byte): Step {
    match p.state
    case ReqHttpStart =>
      if b == Ch('H') then To(p, ReqHttpH) else if b == Ch(' ') then Go(p) else Fail(p)
    case ReqHttpH => To(p, ReqHttpHt)
    case ReqHttpHt => To(p, ReqHttpHtt)
    case ReqHttpHtt => To(p, ReqHttpHttp)
    case ReqHttpHttp => To(p, ReqFirstMajor)
    case ReqFirstMajor =>
      if b < Ch('1') || b > Ch('9') then Fail(p) else Go(p.(major := b - Ch('0'), state := ReqMajor))
    case ReqMajor => StepMajor(p, b, ReqFirstMinor)
    case ReqFirstMinor =>
      if !IsNum(b) then Fail(p) else Go(p.(minor := b - Ch('0'), state := ReqMinor))
    case ReqMinor =>
      if b == CR then To(p, ReqLineAlmostDone)
      else if b == LF then LineDone(p, [])
      else MinorDigit(p, b)
    case _ =>
      if b != LF then Fail(p) else LineDone(p, [])
  }

  // ---- Header fields --------------------------------------------------------------------------

  /** The first character of a name picks the name it could be. */
  function FirstHeader(t: byte): HeaderState {
    if t == Ch('c') then C
    else if t == Ch('p') then MatchingProxyConnection
    else if t == Ch('t') then MatchingTransferEncoding
    else if t == Ch('u') then MatchingUpgrade
    else General
  }

  /** One more character against a name: still matching, matched to its end, or some other name. */
  function MatchName(name: string, index: nat, t: byte, matching: HeaderState, matched: HeaderState): HeaderState {
    if index > |name| || t != CharAt(name, index) then General
    else if index == |name| - 1 then matched
    else matching
  }

  /** The recogniser of header names: its state and index after one more character t of byte b. */
  function NextHeader(h: HeaderState, index: nat, b: byte, t: byte): (HeaderState, nat) {
    match h
    case C => (if t == Ch('o') then Co else General, index + 1)
    case Co => (if t == Ch('n') then Con else General, index + 1)
    case Con =>
      (if t == Ch('n') then MatchingConnection else if t == Ch('t') then MatchingContentLength else General, index + 1)
    case MatchingConnection => (MatchName(HTTP_CONNECTION, index + 1, t, h, Connection), index + 1)
    case MatchingProxyConnection => (MatchName(HTTP_PROXY_CONNECTION, index + 1, t, h, Connection), index + 1)
    case MatchingContentLength => (MatchName(HTTP_CONTENT_LENGTH, index + 1, t, h, ContentLength), index + 1)
    case MatchingTransferEncoding => (MatchName(HTTP_TRANSFER_ENCODING, index + 1, t, h, TransferEncoding), index + 1)
    case MatchingUpgrade => (MatchName(HTTP_UPGRADE, index + 1, t, h, Upgrade), index + 1)
    case Connection => (if b != Ch(' ') then General else h, index)
    case ContentLength => (if b != Ch(' ') then General else h, index)
    case TransferEncoding => (if b != Ch(' ') then General else h, index)
    case Upgrade => (if b != Ch(' ') then General else h, index)
    case _ => (h, index)
  }

  function StepFieldStart(p: Parser, b: byte, pos: nat): Step {
    if b == CR then To(p, HeadersAlmostDone)
    else if b == LF then StepHeadersDone(p.(state := HeadersAlmostDone))
    else if Token(b) == 0 then Fail(p)
    else Go(p.(fieldMark := Some(pos), index := 0, state := HeaderField, headerState := FirstHeader(Token(b))))
  }

  function StepField(p: Parser, b: byte, pos: nat): Step {
    if Token(b) != 0 then
      var (h, index) := NextHeader(p.headerState, p.index, b, Token(b));
      Go(p.(headerState := h, index := index))
    else
      var q := p.(fieldMark := None);
      if b == Ch(':') then Step(q.(state := HeaderValueStart), FieldCall(p, pos), Reading)
      else if b == CR then Step(q.(state := HeaderAlmostDone), FieldCall(p, pos), Reading)
      else if b == LF then Step(q.(state := HeaderFieldStart), FieldCall(p, pos), Reading)
      else Fail(p)
  }

  function StepValueStart(p: Parser, b: byte, pos: nat): Step {
    if b == Ch(' ') || b == 9 then Go(p)
    else
      var q := p.(valueMark := Some(pos), state := HeaderValue, index := 0);
      if b == CR then
        Step(q.(valueMark := None, headerState := General, state := HeaderAlmostDone), ValueCall(q, pos), Reading)
      else if b == LF then
        Step(q.(valueMark := None, state := HeaderFieldStart), ValueCall(q, pos), Reading)
      else
        match p.headerState
        case Upgrade => Go(q.(flags := q.flags.(upgrade := true), headerState := General))
        case TransferEncoding =>
          Go(q.(headerState := if Lower(b) == Ch('c') then MatchingChunked else General))
        case ContentLength =>
          if !IsNum(b) then Fail(q) else Go(q.(contentLength := b - Ch('0')))
        case Connection =>
          Go(q.(headerState := if Lower(b) == Ch('k') then MatchingKeepAlive
                               else if Lower(b) == Ch('c') then MatchingClose else General))
        case _ => Go(q.(headerState := General))
  }

  /** The recogniser of header values, except for the digits of a length. */
  function NextValue(h: HeaderState, index: nat, b: byte): (HeaderState, nat) {
    match h
    case MatchingChunked => (MatchName(HTTP_CHUNKED, index + 1, Lower(b), h, ValueChunked), index + 1)
    case MatchingKeepAlive => (MatchName(HTTP_KEEP_ALIVE, index + 1, Lower(b), h, ValueKeepAlive), index + 1)
    case MatchingClose => (MatchName(HTTP_CLOSE, index + 1, Lower(b), h, ValueClose), index + 1)
    case ValueChunked => (if b != Ch(' ') then General else h, index)
    case ValueKeepAlive => (if b != Ch(' ') then General else h, index)
    case ValueClose => (if b != Ch(' ') then General else h, index)
    case Connection | TransferEncoding => (h, index)
    case _ => (General, index)
  }

  /** One more digit of a length in a base, as long as the int holds it. */
  function LengthDigit(p: Parser, base: nat, digit: nat): Step {
    var length := p.contentLength * base + digit;
    if length > INT_MAX then Step(p, [], Overflowed) else Go(p.(contentLength := length))
  }

  function StepValue(p: Parser, b: byte, pos: nat): Step {
    var q := p.(valueMark := None);
    if b == CR then Step(q.(state := HeaderAlmostDone), ValueCall(p, pos), Reading)
    else if b == LF then Step(HeaderDone(q), ValueCall(p, pos), Reading)
    else if p.headerState == ContentLength then
      if b == Ch(' ') then Go(p)
      else if !IsNum(b) then Fail(p)
      else LengthDigit(p, 10, b - Ch('0'))
    else
      var (h, index) := NextValue(p.headerState, p.index, b);
      Go(p.(headerState := h, index := index))
  }

  /** The end of a header line takes note of what its value was recognised as. */
  function NotedFlags(h: HeaderState, flags: Flags): Flags {
    match h
    case ValueKeepAlive => flags.(keepAlive := true)
    case ValueClose => flags.(close := true)
    case ValueChunked => flags.(chunked := true)
    case _ => flags
  }

  function HeaderDone(p: Parser): Parser {
    p.(state := HeaderValueLws, flags := NotedFlags(p.headerState, p.flags))
  }

  /** The empty line behind the headers or the trailers decides what follows. */
  function StepHeadersDone(p: Parser): Step {
    if p.flags.trailing then Finish(p, [])
    else
      var length := if p.contentLength > 0 then p.contentLength else 0;
      var q := p.(upgrade := p.upgrade || p.flags.upgrade || p.verb == CONNECT, savedLength := length);
      var events := [HeadersComplete(Seen(q))];
      if q.upgrade then Step(q, events + [MessageComplete(Seen(q))], Switched)
      else if q.flags.chunked then Step(q.(state := ChunkSizeStart), events, Reading)
      else if q.contentLength == 0 then Finish(q, events)
      else if q.contentLength > 0 then Step(q.(state := BodyIdentity), events, Reading)
      else if q.kind == Request || ShouldKeepAlive(q) then Finish(q, events)
      else Step(q.(state := BodyIdentityEof), events, Reading)
  }

  function StepHeader(p: Parser, b: byte, pos: nat): Step {
    match p.state
    case HeaderFieldStart => StepFieldStart(p, b, pos)
    case HeaderField => StepField(p, b, pos)
    case HeaderValueStart => StepValueStart(p, b, pos)
    case HeaderValue => StepValue(p, b, pos)
    case HeaderAlmostDone => Go(HeaderDone(p))
    case HeaderValueLws =>
      if b == Ch(' ') || b == 9 then To(p, HeaderValueStart)
      else StepFieldStart(p.(state := HeaderFieldStart), b, pos)
    case _ => StepHeadersDone(p)
  }

  // ---- Bodies ---------------------------------------------------------------------------------

  /** One byte of a body of announced length, or the only one of a body that ends with the stream. */
  function StepBody(p: Parser, pos: nat): Step {
    match p.state
    case BodyIdentity =>
      var q := p.(contentLength := p.contentLength - 1);
      if q.contentLength == 0 then Finish(q, [Body(pos, pos + 1)])
      else Step(q, [Body(pos, pos + 1)], Reading)
    case _ => Step(p, [Body(pos, pos + 1)], Reading)
  }

  function StepChunk(p: Parser, b: byte, pos: nat): Step {
    match p.state
    case ChunkSizeStart =>
      if Unhex(b) == -1 then Fail(p) else Go(p.(contentLength := Unhex(b), state := ChunkSize))
    case ChunkSize =>
      if b == CR then To(p, ChunkSizeAlmostDone)
      else if Unhex(b) != -1 then LengthDigit(p, 16, Unhex(b))
      else if b == Ch(';') || b == Ch(' ') then To(p, ChunkParameters)
      else Fail(p)
    case ChunkParameters =>
      if b == CR then To(p, ChunkSizeAlmostDone) else Go(p)
    case ChunkSizeAlmostDone =>
      if p.contentLength == 0 then
        var q := p.(flags := p.flags.(trailing := true));
        LineDone(q, [])
      else To(p, ChunkData)
    case ChunkData =>
      Step(p.(contentLength := p.contentLength - 1,
              state := if p.contentLength == 1 then ChunkDataAlmostDone else ChunkData),
           [Body(pos, pos + 1)], Reading)
    case ChunkDataAlmostDone => To(p, ChunkDataDone)
    case _ => To(p, ChunkSizeStart)
  }

  // ---- The switch -----------------------------------------------------------------------------

  datatype Group = Starting | StatusLine | Target | Version | Headers | Bodies | Chunks | Never

  function GroupOf(s: State): Group {
    match s
    case Dead => Never
    case StartReqOrRes | ResOrRespH | StartRes | StartReq | ReqMethod => Starting
    case ResH | ResHt | ResHtt | ResHttp | ResFirstMajor | ResMajor | ResFirstMinor | ResMinor
       | ResFirstStatus | ResStatusCode | ResStatus | ResLineAlmostDone => StatusLine
    case ReqSpacesBeforeUrl | ReqSchema | ReqSchemaSlash | ReqSchemaSlashSlash | ReqHost | ReqPort | ReqPath
       | ReqQueryStart | ReqQuery | ReqFragmentStart | ReqFragment => Target
    case ReqHttpStart | ReqHttpH | ReqHttpHt | ReqHttpHtt | ReqHttpHttp | ReqFirstMajor | ReqMajor
       | ReqFirstMinor | ReqMinor | ReqLineAlmostDone => Version
    case HeaderFieldStart | HeaderField | HeaderValueStart | HeaderValue | HeaderValueLws | HeaderAlmostDone
       | HeadersAlmostDone => Headers
    case BodyIdentity | BodyIdentityEof => Bodies
    case _ => Chunks
  }

  /** The parser after the byte b at position pos of the stream. */
  function StepByte(p: Parser, b: byte, pos: nat): Step {
    match GroupOf(p.state)
    case Starting => StepStart(p, b)
    case StatusLine => StepStatusLine(p, b)
    case Target => StepUrl(p, b, pos)
    case Version => StepVersion(p, b)
    case Headers => StepHeader(p, b, pos)
    case Bodies => StepBody(p, pos)
    case Chunks => StepChunk(p, b, pos)
    case Never => Fail(p)
  }
}
