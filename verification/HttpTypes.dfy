/**
 * What the HTTP/1.1 parser of the source is made of: its states, its fields, the character classes
 * it looks bytes up in, and the calls it makes to the handlers.
 */
module HttpTypes {
  import opened Common

  datatype Kind = Request | Response | Both

  datatype State =
    | Dead | StartReqOrRes | ResOrRespH
    | StartRes | ResH | ResHt | ResHtt | ResHttp
    | ResFirstMajor | ResMajor | ResFirstMinor | ResMinor
    | ResFirstStatus | ResStatusCode | ResStatus | ResLineAlmostDone
    | StartReq | ReqMethod | ReqSpacesBeforeUrl
    | ReqSchema | ReqSchemaSlash | ReqSchemaSlashSlash | ReqHost | ReqPort
    | ReqPath | ReqQueryStart | ReqQuery | ReqFragmentStart | ReqFragment
    | ReqHttpStart | ReqHttpH | ReqHttpHt | ReqHttpHtt | ReqHttpHttp
    | ReqFirstMajor | ReqMajor | ReqFirstMinor | ReqMinor | ReqLineAlmostDone
    | HeaderFieldStart | HeaderField | HeaderValueStart | HeaderValue | HeaderValueLws | HeaderAlmostDone
    | ChunkSizeStart | ChunkSize | ChunkParameters | ChunkSizeAlmostDone
    | HeadersAlmostDone
    | ChunkData | ChunkDataAlmostDone | ChunkDataDone
    | BodyIdentity | BodyIdentityEof

  datatype HeaderState =
    | Unset
    | General | C | Co | Con
    | MatchingConnection | MatchingProxyConnection | MatchingContentLength
    | MatchingTransferEncoding | MatchingUpgrade
    | Connection | ContentLength | TransferEncoding | Upgrade
    | MatchingChunked | MatchingKeepAlive | MatchingClose
    | ValueChunked | ValueKeepAlive | ValueClose

  datatype Flags = Flags(chunked: bool, keepAlive: bool, close: bool, trailing: bool, upgrade: bool)

  const NO_FLAGS := Flags(false, false, false, false, false)

  /** The largest value of the int that lengths are kept in. */
  const INT_MAX: int := 0x7fffffff

  /** The fields of the parser. The marks are positions in the stream of the connection. */
  datatype Parser = Parser(
    kind: Kind,
    state: State,
    headerState: HeaderState,
    index: nat,
    flags: Flags,
    contentLength: int,
    major: nat,
    minor: nat,
    statusCode: nat,
    verb: nat,
    upgrade: bool,
    savedLength: nat,
    fieldMark: Option<nat>,
    valueMark: Option<nat>,
    urlMark: Option<nat>)

  /** The parser as the server creates it, and as it resets it between messages. */
  const FRESH := Parser(Request, StartReq, Unset, 0, Flags(false, true, true, false, false), -1, 0, 0, 0, 0, false, 0,
                        None, None, None)

  function Reset(p: Parser): Parser {
    FRESH.(index := p.index)
  }

  function StartState(kind: Kind): State {
    if kind == Request then StartReq else StartRes
  }

  /** A persistent connection: by default above HTTP/1.0, by request below. */
  predicate ShouldKeepAlive(p: Parser) {
    if p.major > 0 && p.minor > 0 then !p.flags.close else p.flags.keepAlive
  }

  /** What a handler sees of the message at the time of a call. */
  datatype Snapshot = Snapshot(major: nat, minor: nat, verb: nat, statusCode: nat, flags: Flags, contentLength: nat)

  function Seen(p: Parser): Snapshot {
    Snapshot(p.major, p.minor, p.verb, p.statusCode, p.flags.(keepAlive := ShouldKeepAlive(p)), p.savedLength)
  }

  /** The calls to the handlers. Data is handed over as a range of positions of the stream. */
  datatype Event =
    | MessageBegin(seen: Snapshot)
    | Url(from: nat, to: nat, seen: Snapshot)
    | Line(seen: Snapshot)
    | FieldName(from: nat, to: nat, seen: Snapshot)
    | FieldValue(from: nat, to: nat, seen: Snapshot)
    | HeadersComplete(seen: Snapshot)
    | Body(from: nat, to: nat)
    | MessageComplete(seen: Snapshot)

  // ---- Bytes ----------------------------------------------------------------------------------

  const CR: byte := 13
  const LF: byte := 10

  function Ch(c: char): int {
    c as int
  }

  /** byte | 0x20 */
  function Lower(b: byte): byte {
    if b / 32 % 2 == 0 then b + 32 else b
  }

  predicate IsAlpha(b: byte) {
    Ch('a') <= Lower(b) <= Ch('z')
  }

  predicate IsNum(b: byte) {
    Ch('0') <= b <= Ch('9')
  }

  predicate IsHostChar(b: byte) {
    IsAlpha(b) || IsNum(b) || b == Ch('.') || b == Ch('-') || b == Ch('_')
  }

  /** normal_url_char, and every byte with its high bit set. */
  predicate IsUrlChar(b: byte) {
    b >= 128 || (33 <= b < 127 && b != Ch('#') && b != Ch('?'))
  }

  /** The table of header name characters: zero, or the character with its letters in lower case. */
  function Token(b: byte): byte {
    if Ch('A') <= b <= Ch('Z') then b + 32
    else if Ch('a') <= b <= Ch('z') || IsNum(b) then b
    else if 32 <= b <= 39 || 42 <= b <= 43 || 45 <= b <= 47 || 94 <= b <= 96 || 124 <= b <= 126 then b
    else 0
  }

  /** The table of hexadecimal digits. Its upper half is left at zero by the initialiser. */
  function Unhex(b: byte): int {
    if IsNum(b) then b - Ch('0')
    else if Ch('A') <= b <= Ch('F') then b - Ch('A') + 10
    else if Ch('a') <= b <= Ch('f') then b - Ch('a') + 10
    else if b >= 128 then 0
    else -1
  }

  /** A string of the source read at an index, with the zero that ends it. */
  function CharAt(s: string, i: nat): int {
    if i < |s| then s[i] as int else 0
  }

  const GET := 2
  const HEAD := 3
  const POST := 4
  const CONNECT := 6
  const MKCOL := 11
  const PROPFIND := 13
  const UNLOCK := 15

  function MethodName(m: nat): string {
    match m
    case 1 => "DELETE" case 2 => "GET" case 3 => "HEAD" case 4 => "POST"
    case 5 => "PUT" case 6 => "CONNECT" case 7 => "OPTIONS" case 8 => "TRACE"
    case 9 => "COPY" case 10 => "LOCK" case 11 => "MKCOL" case 12 => "MOVE"
    case 13 => "PROPFIND" case 14 => "PROPPATCH" case 15 => "UNLOCK" case 16 => "REPORT"
    case 17 => "MKACTIVITY" case 18 => "CHECKOUT" case 19 => "MERGE" case 20 => "M-SEARCH"
    case 21 => "NOTIFY" case 22 => "SUBSCRIBE" case 23 => "UNSUBSCRIBE" case 24 => "PATCH"
    case _ => ""
  }

  const HTTP_CONNECTION := "connection"
  const HTTP_PROXY_CONNECTION := "proxy-connection"
  const HTTP_CONTENT_LENGTH := "content-length"
  const HTTP_TRANSFER_ENCODING := "transfer-encoding"
  const HTTP_UPGRADE := "upgrade"
  const HTTP_CHUNKED := "chunked"
  const HTTP_KEEP_ALIVE := "keep-alive"
  const HTTP_CLOSE := "close"
}
