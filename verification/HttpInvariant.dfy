/**
 * What holds of the parser in every state it can reach from a fresh start, for a request or for a
 * response. It covers every assertion the source makes in its switch, except the one on a counter
 * that the source never increments.
 */
module HttpInvariant {
  import opened Common
  import opened HttpTypes
  import opened HttpStep

  /** The header states that a name can be in while it is read, each with its index. */
  predicate NameState(h: HeaderState, index: nat) {
    match h
    case General => index <= 20
    case C => index == 0
    case Co => index == 1
    case Con => index == 2
    case MatchingConnection => 3 <= index <= 8
    case MatchingProxyConnection => index <= 14
    case MatchingContentLength => 3 <= index <= 12
    case MatchingTransferEncoding => index <= 15
    case MatchingUpgrade => index <= 5
    case Connection | ContentLength | TransferEncoding | Upgrade => index <= 16
    case _ => false
  }

  /** The header states that a value can be in while it is read. */
  predicate ValueState(h: HeaderState, index: nat) {
    match h
    case General | ContentLength => index <= 20
    case MatchingChunked => index <= 5
    case MatchingKeepAlive => index <= 8
    case MatchingClose => index <= 3
    case ValueChunked | ValueKeepAlive | ValueClose => index <= 20
    case _ => false
  }

  predicate MarkOk(mark: Option<nat>, pos: nat) {
    mark.Some? ==> mark.value <= pos
  }

  /** What each state implies; the states that imply false are never reached. */
  predicate StateOk(p: Parser) {
    match p.state
    case Dead | StartReqOrRes | ResOrRespH => false
    case StartRes | ResH | ResHt | ResHtt | ResHttp | ResFirstMajor | ResMajor | ResFirstMinor | ResMinor
       | ResFirstStatus | ResStatusCode | ResStatus | ResLineAlmostDone | BodyIdentityEof =>
      p.kind == Response
    case StartReq | ReqSpacesBeforeUrl | ReqHttpStart | ReqHttpH | ReqHttpHt | ReqHttpHtt | ReqHttpHttp
       | ReqFirstMajor | ReqMajor | ReqFirstMinor | ReqMinor | ReqLineAlmostDone =>
      p.kind == Request
    case ReqMethod =>
      p.kind == Request && 1 <= p.verb <= 24 && 1 <= p.index <= |MethodName(p.verb)|
    case ReqSchema | ReqSchemaSlash | ReqSchemaSlashSlash | ReqHost | ReqPort | ReqPath
       | ReqQueryStart | ReqQuery | ReqFragmentStart | ReqFragment =>
      p.kind == Request && p.urlMark.Some?
    case HeaderField => NameState(p.headerState, p.index) && p.fieldMark.Some?
    case HeaderValue =>
      && ValueState(p.headerState, p.index) && p.valueMark.Some?
      && (p.headerState == ContentLength ==> p.contentLength >= 0)
    case HeaderFieldStart | HeaderValueStart | HeaderValueLws | HeaderAlmostDone | HeadersAlmostDone => true
    case ChunkSizeStart | ChunkDataAlmostDone | ChunkDataDone => p.flags.chunked && !p.flags.trailing
    case ChunkSize | ChunkParameters | ChunkSizeAlmostDone =>
      p.flags.chunked && !p.flags.trailing && p.contentLength >= 0
    case ChunkData => p.flags.chunked && !p.flags.trailing && p.contentLength > 0
    case BodyIdentity => p.contentLength > 0
  }

  /** What holds in every state, at a position of the stream. */
  predicate Bounded(p: Parser, pos: nat) {
    && p.kind != Both
    && p.index <= 20
    && p.contentLength <= INT_MAX
    && (p.flags.trailing ==> p.flags.chunked)
    && MarkOk(p.fieldMark, pos) && MarkOk(p.valueMark, pos) && MarkOk(p.urlMark, pos)
  }

  predicate Sound(p: Parser, pos: nat) {
    StateOk(p) && Bounded(p, pos)
  }

  /** The ranges handed to the handlers lie between what has been read. */
  predicate EventOk(e: Event, pos: nat) {
    match e
    case Url(from, to, _) => from <= to <= pos
    case FieldName(from, to, _) => from <= to <= pos
    case FieldValue(from, to, _) => from <= to <= pos
    case Body(from, to) => from < to <= pos
    case _ => true
  }

  predicate EventsOk(es: seq<Event>, pos: nat) {
    forall i :: 0 <= i < |es| ==> EventOk(es[i], pos)
  }

  /** What a step must keep. */
  predicate Keeps(s: Step, pos: nat) {
    && EventsOk(s.events, pos + 1)
    && (s.status in {Reading, Complete} ==> Sound(s.p, pos + 1))
    && (s.status == Complete ==> s.p.state == StartState(s.p.kind))
  }

  // ---- Reading and establishing the invariant of a state ---------------------------------------

  lemma SoundParts(p: Parser, pos: nat)
    requires Sound(p, pos)
    ensures StateOk(p) && Bounded(p, pos)
  {
  }

  /** The states that only fix the kind of the message. */
  predicate Plain(kind: Kind, s: State) {
    match s
    case StartRes | ResH | ResHt | ResHtt | ResHttp | ResFirstMajor | ResMajor | ResFirstMinor | ResMinor
       | ResFirstStatus | ResStatusCode | ResStatus | ResLineAlmostDone | BodyIdentityEof =>
      kind == Response
    case StartReq | ReqSpacesBeforeUrl | ReqHttpStart | ReqHttpH | ReqHttpHt | ReqHttpHtt | ReqHttpHttp
       | ReqFirstMajor | ReqMajor | ReqFirstMinor | ReqMinor | ReqLineAlmostDone =>
      kind == Request
    case HeaderFieldStart | HeaderValueStart | HeaderValueLws | HeaderAlmostDone | HeadersAlmostDone => true
    case _ => false
  }

  lemma PlainOk(p: Parser)
    requires Plain(p.kind, p.state)
    ensures StateOk(p)
  {
  }

  lemma StartOk(p: Parser)
    requires p.kind != Both && p.state == StartState(p.kind)
    ensures StateOk(p)
  {
  }

  lemma RequestState(p: Parser)
    requires StateOk(p)
    ensures GroupOf(p.state) == Target || GroupOf(p.state) == Version ==> p.kind == Request
    ensures p.state == StartReq ==> p.kind == Request
  {
  }

  lemma ResponseState(p: Parser)
    requires StateOk(p)
    ensures GroupOf(p.state) == StatusLine ==> p.kind == Response
    ensures p.state == StartRes || p.state == BodyIdentityEof ==> p.kind == Response
  {
  }

  lemma ReachedState(p: Parser)
    requires StateOk(p)
    ensures p.state != Dead && p.state != StartReqOrRes && p.state != ResOrRespH
  {
  }

  predicate InTarget(s: State) {
    match s
    case ReqSchema | ReqSchemaSlash | ReqSchemaSlashSlash | ReqHost | ReqPort | ReqPath
       | ReqQueryStart | ReqQuery | ReqFragmentStart | ReqFragment => true
    case _ => false
  }

  lemma TargetOk(p: Parser)
    requires InTarget(p.state)
    ensures StateOk(p) <==> p.kind == Request && p.urlMark.Some?
  {
  }

  predicate InSize(s: State) {
    match s
    case ChunkSize | ChunkParameters | ChunkSizeAlmostDone => true
    case _ => false
  }

  predicate InChunk(s: State) {
    match s
    case ChunkSizeStart | ChunkSize | ChunkParameters | ChunkSizeAlmostDone
       | ChunkData | ChunkDataAlmostDone | ChunkDataDone => true
    case _ => false
  }

  lemma ChunkOk(p: Parser)
    requires InChunk(p.state)
    ensures StateOk(p) <==>
              && p.flags.chunked && !p.flags.trailing
              && (InSize(p.state) ==> p.contentLength >= 0)
              && (p.state == ChunkData ==> p.contentLength > 0)
  {
  }

  lemma BodyOk(p: Parser)
    requires p.state == BodyIdentity
    ensures StateOk(p) <==> p.contentLength > 0
  {
  }

  lemma MethodOk(p: Parser)
    requires p.state == ReqMethod
    ensures StateOk(p) <==> p.kind == Request && 1 <= p.verb <= 24 && 1 <= p.index <= |MethodName(p.verb)|
  {
  }

  lemma FieldOk(p: Parser)
    requires p.state == HeaderField
    ensures StateOk(p) <==> NameState(p.headerState, p.index) && p.fieldMark.Some?
  {
  }

  lemma ValueOk(p: Parser)
    requires p.state == HeaderValue
    ensures StateOk(p) <==>
              && ValueState(p.headerState, p.index) && p.valueMark.Some?
              && (p.headerState == ContentLength ==> p.contentLength >= 0)
  {
  }

  lemma ResetSound(p: Parser, pos: nat)
    requires p.index <= 20
    ensures Sound(Reset(p), pos)
  {
  }

  /** The bounds do not look at the version, the status, the verb and the recognised names. */
  lemma BoundedSame(p: Parser, q: Parser, pos: nat)
    requires Bounded(p, pos)
    requires q.kind == p.kind && q.index == p.index && q.contentLength == p.contentLength && q.flags == p.flags
    requires q.fieldMark == p.fieldMark && q.valueMark == p.valueMark && q.urlMark == p.urlMark
    ensures Bounded(q, pos + 1)
  {
  }

  predicate MarkMoves(was: Option<nat>, now: Option<nat>, pos: nat) {
    now == was || now == None || now == Some(pos)
  }

  /** What a step may do to the fields that are bounded. */
  lemma BoundedNext(p: Parser, q: Parser, pos: nat)
    requires Bounded(p, pos)
    requires q.kind == p.kind && q.index <= 20 && q.contentLength <= INT_MAX
    requires q.flags.trailing ==> q.flags.chunked
    requires MarkMoves(p.fieldMark, q.fieldMark, pos) && MarkMoves(p.valueMark, q.valueMark, pos)
    requires MarkMoves(p.urlMark, q.urlMark, pos)
    ensures Bounded(q, pos + 1)
  {
  }

  lemma BoundedFacts(p: Parser, pos: nat)
    requires Bounded(p, pos)
    ensures p.kind != Both && p.index <= 20 && p.contentLength <= INT_MAX
    ensures p.flags.trailing ==> p.flags.chunked
    ensures MarkOk(p.fieldMark, pos) && MarkOk(p.valueMark, pos) && MarkOk(p.urlMark, pos)
  {
  }

  // ---- Group by group -------------------------------------------------------------------------

  lemma NextMethodOk(m: nat, index: nat, b: byte)
    requires 1 <= m <= 24 && 1 <= index <= |MethodName(m)| && b != 0
    ensures NextMethod(m, index, b).Some? ==>
              var m' := NextMethod(m, index, b).value;
              1 <= m' <= 24 && index + 1 <= |MethodName(m')|
    ensures |MethodName(m)| <= 11
  {
  }

  lemma MethodKeeps(p: Parser, b: byte, pos: nat)
    requires Sound(p, pos) && p.state == ReqMethod
    ensures Keeps(StepMethod(p, b), pos)
  {
    hide StateOk;
    hide NextMethod;
    hide MethodName;
    MethodOk(p);
    if b != 0 {
      NextMethodOk(p.verb, p.index, b);
      var s := StepMethod(p, b);
      if s.p.state == ReqMethod { MethodOk(s.p); } else { PlainOk(s.p); }
    }
  }

  lemma FirstMethodOk(b: byte)
    ensures FirstMethod(b) != 0 ==> 1 <= FirstMethod(b) <= 24 && 1 <= |MethodName(FirstMethod(b))|
  {
  }

  lemma StartKeeps(p: Parser, b: byte, pos: nat)
    requires Sound(p, pos) && GroupOf(p.state) == Starting
    ensures Keeps(StepStart(p, b), pos)
  {
    hide StateOk;
    hide FirstMethod;
    hide MethodName;
    hide StepMethod;
    hide IsAlpha;
    RequestState(p);
    ResponseState(p);
    ReachedState(p);
    FirstMethodOk(b);
    var s := StepStart(p, b);
    if p.state == ReqMethod {
      MethodKeeps(p, b, pos);
    } else if p.state == StartRes {
      if s.status == Reading { PlainOk(s.p); }
    } else if p.state == StartReq {
      if s.p.state == ReqMethod { MethodOk(s.p); } else { PlainOk(s.p); }
    }
  }

  predicate IsDigitState(s: State) {
    match s
    case ResFirstMajor | ResMajor | ResFirstMinor | ResMinor | ResFirstStatus | ResStatusCode
       | ReqFirstMajor | ReqMajor | ReqFirstMinor | ReqMinor => true
    case _ => false
  }

  lemma StatusTextKeeps(p: Parser, b: byte, pos: nat)
    requires Bounded(p, pos) && p.kind == Response
    requires GroupOf(p.state) == StatusLine && !IsDigitState(p.state)
    ensures Keeps(StepStatusLine(p, b), pos)
  {
    hide StateOk;
    hide Bounded;
    hide IsNum;
    hide EventsOk;
    hide Seen;
    QuietEvents(Seen(p), pos + 1);
    var s := StepStatusLine(p, b);
    if s.status == Reading {
      PlainOk(s.p);
      BoundedSame(p, s.p, pos);
    }
  }

  lemma StatusDigitsKeep(p: Parser, b: byte, pos: nat)
    requires Bounded(p, pos) && p.kind == Response
    requires GroupOf(p.state) == StatusLine && IsDigitState(p.state)
    ensures Keeps(StepStatusLine(p, b), pos)
  {
    hide StateOk;
    hide Bounded;
    hide IsNum;
    hide EventsOk;
    hide Seen;
    QuietEvents(Seen(p), pos + 1);
    var s := StepStatusLine(p, b);
    if s.status == Reading {
      PlainOk(s.p);
      BoundedSame(p, s.p, pos);
    }
  }

  lemma StatusLineKeeps(p: Parser, b: byte, pos: nat)
    requires Sound(p, pos) && GroupOf(p.state) == StatusLine
    ensures Keeps(StepStatusLine(p, b), pos)
  {
    hide *;
    SoundParts(p, pos);
    ResponseState(p);
    if IsDigitState(p.state) { StatusDigitsKeep(p, b, pos); } else { StatusTextKeeps(p, b, pos); }
  }

  lemma VersionTextKeeps(p: Parser, b: byte, pos: nat)
    requires Bounded(p, pos) && p.kind == Request
    requires GroupOf(p.state) == Version && !IsDigitState(p.state)
    ensures Keeps(StepVersion(p, b), pos)
  {
    hide StateOk;
    hide Bounded;
    hide IsNum;
    hide EventsOk;
    hide Seen;
    QuietEvents(Seen(p), pos + 1);
    var s := StepVersion(p, b);
    if s.status == Reading {
      PlainOk(s.p);
      BoundedSame(p, s.p, pos);
    }
  }

  lemma VersionDigitsKeep(p: Parser, b: byte, pos: nat)
    requires Bounded(p, pos) && p.kind == Request
    requires GroupOf(p.state) == Version && IsDigitState(p.state)
    ensures Keeps(StepVersion(p, b), pos)
  {
    hide StateOk;
    hide Bounded;
    hide IsNum;
    hide EventsOk;
    hide Seen;
    QuietEvents(Seen(p), pos + 1);
    var s := StepVersion(p, b);
    if s.status == Reading {
      PlainOk(s.p);
      BoundedSame(p, s.p, pos);
    }
  }

  lemma VersionKeeps(p: Parser, b: byte, pos: nat)
    requires Sound(p, pos) && GroupOf(p.state) == Version
    ensures Keeps(StepVersion(p, b), pos)
  {
    hide *;
    SoundParts(p, pos);
    RequestState(p);
    if IsDigitState(p.state) { VersionDigitsKeep(p, b, pos); } else { VersionTextKeeps(p, b, pos); }
  }

  // ---- The target -----------------------------------------------------------------------------

  lemma UrlEventsOk(p: Parser, s: Snapshot, pos: nat)
    requires Bounded(p, pos)
    ensures EventsOk(UrlCall(p, pos), pos + 1) && EventsOk(UrlCall(p, pos) + [Line(s)], pos + 1)
  {
    hide Seen;
  }

  /** The states behind a target. */
  lemma TargetEndState(p: Parser, b: byte, pos: nat)
    requires p.kind == Request
    ensures var s := EndOrFail(p, b, pos);
            && (s.status == Reading || s.status == Failed)
            && (s.status == Reading ==>
                  && Plain(s.p.kind, s.p.state)
                  && s.p == p.(urlMark := None, state := s.p.state, major := s.p.major, minor := s.p.minor)
                  && (s.events == UrlCall(p, pos) || s.events == UrlCall(p, pos) + [Line(Seen(s.p.(state := p.state)))]))
            && (s.status == Failed ==> s.events == [])
  {
    hide Seen;
    hide UrlCall;
  }

  lemma TargetEndKeeps(p: Parser, b: byte, pos: nat)
    requires Bounded(p, pos) && p.kind == Request
    ensures Keeps(EndOrFail(p, b, pos), pos)
  {
    hide StateOk;
    hide Bounded;
    hide Plain;
    hide EndOrFail;
    hide EventsOk;
    hide UrlCall;
    hide Seen;
    var s := EndOrFail(p, b, pos);
    TargetEndState(p, b, pos);
    UrlEventsOk(p, Seen(s.p.(state := p.state)), pos);
    QuietEvents(Seen(p), pos + 1);
    if s.status == Reading {
      BoundedFacts(p, pos);
      BoundedNext(p, s.p, pos);
      PlainOk(s.p);
    }
  }

  lemma AuthorityEndKeeps(p: Parser, b: byte, pos: nat)
    requires Bounded(p, pos) && p.kind == Request && p.urlMark.Some?
    ensures Keeps(StepAuthorityEnd(p, b, pos), pos)
  {
    hide StateOk;
    var s := StepAuthorityEnd(p, b, pos);
    if s.p.state == ReqHttpStart { PlainOk(s.p); } else if s.status == Reading { TargetOk(s.p); }
  }

  lemma SpacesKeep(p: Parser, b: byte, pos: nat)
    requires Bounded(p, pos) && p.kind == Request && p.state == ReqSpacesBeforeUrl
    ensures Keeps(StepUrl(p, b, pos), pos)
  {
    hide StateOk;
    hide Bounded;
    hide MarkOk;
    BoundedFacts(p, pos);
    hide IsAlpha;
    hide IsNum;
    hide EventsOk;
    hide InTarget;
    hide Plain;
    var s := StepUrl(p, b, pos);
    QuietEvents(Seen(p), pos + 1);
    BoundedNext(p, s.p, pos);
    SpacesOk(s.p);
  }

  lemma SpacesOk(p: Parser)
    requires p.kind == Request
    ensures p.state == ReqSpacesBeforeUrl ==> StateOk(p)
    ensures (p.state == ReqPath || p.state == ReqHost || p.state == ReqSchema) && p.urlMark.Some? ==> StateOk(p)
  {
  }

  lemma InsideKeeps(p: Parser, b: byte, pos: nat)
    requires Bounded(p, pos) && p.kind == Request && InTarget(p.state) && p.urlMark.Some?
    ensures Keeps(StepUrl(p, b, pos), pos)
  {
    hide StateOk;
    hide Bounded;
    hide EndOrFail;
    hide StepAuthorityEnd;
    hide IsUrlChar;
    hide IsHostChar;
    hide IsAlpha;
    hide IsNum;
    TargetEndKeeps(p, b, pos);
    AuthorityEndKeeps(p, b, pos);
    var s := StepUrl(p, b, pos);
    if s != EndOrFail(p, b, pos) && s != StepAuthorityEnd(p, b, pos) && s != Fail(p) {
      TargetOk(s.p);
      BoundedSame(p, s.p, pos);
    }
  }

  lemma UrlKeeps(p: Parser, b: byte, pos: nat)
    requires Sound(p, pos) && GroupOf(p.state) == Target
    ensures Keeps(StepUrl(p, b, pos), pos)
  {
    hide StepUrl;
    hide Keeps;
    RequestState(p);
    if p.state == ReqSpacesBeforeUrl {
      SpacesKeep(p, b, pos);
    } else {
      TargetOk(p);
      InsideKeeps(p, b, pos);
    }
  }

  // ---- Headers --------------------------------------------------------------------------------

  lemma NextHeaderState(h: HeaderState, index: nat, b: byte, t: byte)
    requires NameState(h, index)
    ensures var r := NextHeader(h, index, b, t); NameState(r.0, r.1) && r.1 <= 20
  {
  }

  lemma NextValueState(h: HeaderState, index: nat, b: byte)
    requires ValueState(h, index) && h != ContentLength
    ensures var r := NextValue(h, index, b); ValueState(r.0, r.1) && r.0 != ContentLength && r.1 <= 20
  {
  }

  lemma TrailersDoneKeep(p: Parser, pos: nat)
    requires Bounded(p, pos) && p.state == HeadersAlmostDone && p.flags.trailing
    ensures Keeps(StepHeadersDone(p), pos)
  {
    hide StateOk;
    hide Bounded;
    hide Seen;
    var s := StepHeadersDone(p);
    BoundedSame(p, s.p, pos);
    BoundedFacts(p, pos);
    StartOk(s.p);
  }

  lemma HeadersDoneKeeps(p: Parser, pos: nat)
    requires Bounded(p, pos) && p.state == HeadersAlmostDone
    ensures Keeps(StepHeadersDone(p), pos)
  {
    hide StepHeadersDone;
    hide Keeps;
    hide Bounded;
    if p.flags.trailing {
      TrailersDoneKeep(p, pos);
    } else {
      MessageHeadersKeep(p, pos);
    }
  }

  /** Calls that hand over no data. */
  lemma QuietEvents(s: Snapshot, pos: nat)
    ensures EventsOk([], pos) && EventsOk([HeadersComplete(s)], pos)
    ensures EventsOk([HeadersComplete(s)] + [MessageComplete(s)], pos) && EventsOk([] + [Line(s)], pos)
  {
  }

  lemma MessageHeadersKeep(p: Parser, pos: nat)
    requires Bounded(p, pos) && p.state == HeadersAlmostDone && !p.flags.trailing
    ensures Keeps(StepHeadersDone(p), pos)
  {
    hide StateOk;
    hide Bounded;
    hide ShouldKeepAlive;
    hide Seen;
    hide Plain;
    hide EventsOk;
    var s := StepHeadersDone(p);
    QuietEvents(s.events[0].seen, pos + 1);
    BoundedSame(p, s.p, pos);
    BoundedFacts(p, pos);
    if s.status == Complete {
      StartOk(s.p);
    } else if s.p.state == ChunkSizeStart {
      ChunkOk(s.p);
    } else if s.p.state == BodyIdentity {
      BodyOk(s.p);
    } else if s.status == Reading {
      EofOk(s.p);
    }
  }

  lemma EofOk(p: Parser)
    requires p.state == BodyIdentityEof && p.kind == Response
    ensures StateOk(p)
  {
  }

  lemma FieldStartKeeps(p: Parser, b: byte, pos: nat)
    requires Bounded(p, pos) && p.state == HeaderFieldStart
    ensures Keeps(StepFieldStart(p, b, pos), pos)
  {
    hide StateOk;
    hide StepHeadersDone;
    hide Token;
    if b == LF {
      HeadersDoneKeeps(p.(state := HeadersAlmostDone), pos);
    } else {
      var s := StepFieldStart(p, b, pos);
      if b == CR { PlainOk(s.p); } else if s.status == Reading { FieldOk(s.p); }
    }
  }

  lemma FieldKeeps(p: Parser, b: byte, pos: nat)
    requires Sound(p, pos) && p.state == HeaderField
    ensures Keeps(StepField(p, b, pos), pos)
  {
    hide StateOk;
    hide NextHeader;
    hide NameState;
    hide Token;
    FieldOk(p);
    var s := StepField(p, b, pos);
    if Token(b) != 0 {
      NextHeaderState(p.headerState, p.index, b, Token(b));
      FieldOk(s.p);
    } else if s.status == Reading {
      PlainOk(s.p);
    }
  }

  lemma ValueStartKeeps(p: Parser, b: byte, pos: nat)
    requires Bounded(p, pos) && p.state == HeaderValueStart
    ensures Keeps(StepValueStart(p, b, pos), pos)
  {
    hide StateOk;
    hide Seen;
    hide IsNum;
    hide Lower;
    if b == Ch(' ') || b == 9 || b == CR || b == LF {
      var s := StepValueStart(p, b, pos);
      PlainOk(s.p);
    } else {
      ValueFirstKeeps(p, b, pos);
    }
  }

  lemma ValueFirstKeeps(p: Parser, b: byte, pos: nat)
    requires Bounded(p, pos) && p.state == HeaderValueStart
    requires b != Ch(' ') && b != 9 && b != CR && b != LF
    ensures Keeps(StepValueStart(p, b, pos), pos)
  {
    hide StateOk;
    hide Bounded;
    hide MarkOk;
    BoundedFacts(p, pos);
    hide Seen;
    hide Lower;
    var s := StepValueStart(p, b, pos);
    if s.status == Reading {
      ValueOk(s.p);
      BoundedNext(p, s.p, pos);
    }
  }

  lemma ValueKeeps(p: Parser, b: byte, pos: nat)
    requires Sound(p, pos) && p.state == HeaderValue
    ensures Keeps(StepValue(p, b, pos), pos)
  {
    hide StateOk;
    hide NextValue;
    hide Lower;
    ValueOk(p);
    var s := StepValue(p, b, pos);
    if b == CR || b == LF {
      hide NotedFlags;
      NotedFlagsTrailing(p.headerState, p.flags);
      PlainOk(s.p);
    } else {
      if p.headerState != ContentLength { NextValueState(p.headerState, p.index, b); }
      if s.status == Reading { ValueOk(s.p); }
    }
  }

  lemma HeaderKeeps(p: Parser, b: byte, pos: nat)
    requires Sound(p, pos) && GroupOf(p.state) == Headers
    ensures Keeps(StepHeader(p, b, pos), pos)
  {
    hide Bounded;
    hide Keeps;
    hide StepFieldStart;
    hide StepField;
    hide StepValueStart;
    hide StepValue;
    hide StepHeadersDone;
    match p.state
    case HeaderFieldStart => FieldStartKeeps(p, b, pos);
    case HeaderField => FieldKeeps(p, b, pos);
    case HeaderValueStart => ValueStartKeeps(p, b, pos);
    case HeaderValue => ValueKeeps(p, b, pos);
    case HeaderAlmostDone => LineEndKeeps(p, pos);
    case HeaderValueLws =>
      FoldedKeeps(p, pos);
      BoundedState(p, HeaderFieldStart, pos);
      FieldStartKeeps(p.(state := HeaderFieldStart), b, pos);
    case HeadersAlmostDone => HeadersDoneKeeps(p, pos);
  }

  lemma BoundedState(p: Parser, s: State, pos: nat)
    requires Bounded(p, pos)
    ensures Bounded(p.(state := s), pos)
  {
  }

  lemma NotedFlagsTrailing(h: HeaderState, flags: Flags)
    requires flags.trailing ==> flags.chunked
    ensures NotedFlags(h, flags).trailing ==> NotedFlags(h, flags).chunked
  {
  }

  lemma LineEndKeeps(p: Parser, pos: nat)
    requires Bounded(p, pos)
    ensures Keeps(Go(HeaderDone(p)), pos) && Bounded(HeaderDone(p), pos + 1) && StateOk(HeaderDone(p))
  {
    hide StateOk;
    hide NotedFlags;
    NotedFlagsTrailing(p.headerState, p.flags);
    PlainOk(HeaderDone(p));
  }

  lemma FoldedKeeps(p: Parser, pos: nat)
    requires Bounded(p, pos)
    ensures Keeps(To(p, HeaderValueStart), pos)
  {
    hide StateOk;
    PlainOk(p.(state := HeaderValueStart));
  }

  // ---- Bodies ---------------------------------------------------------------------------------

  lemma BodyKeeps(p: Parser, pos: nat)
    requires Sound(p, pos) && GroupOf(p.state) == Bodies
    ensures Keeps(StepBody(p, pos), pos)
  {
    hide StateOk;
    hide Seen;
    var s := StepBody(p, pos);
    if p.state == BodyIdentity { BodyOk(p); }
    if s.status == Complete {
      StartOk(s.p);
    } else if p.state == BodyIdentity {
      BodyOk(s.p);
    }
  }

  lemma ChunkGroup(s: State)
    ensures GroupOf(s) == Chunks <==> InChunk(s)
  {
  }

  lemma LengthDigitKeeps(p: Parser, digit: nat, pos: nat)
    requires Sound(p, pos) && p.state == ChunkSize
    ensures Keeps(LengthDigit(p, 16, digit), pos)
  {
    hide StateOk;
    ChunkOk(p);
    var s := LengthDigit(p, 16, digit);
    if s.status == Reading { ChunkOk(s.p); }
  }

  /** The digits of a chunk size and what may follow them. */
  lemma SizeKeeps(p: Parser, b: byte, pos: nat)
    requires Sound(p, pos) && (p.state == ChunkSizeStart || p.state == ChunkSize || p.state == ChunkParameters)
    ensures Keeps(StepChunk(p, b, pos), pos)
  {
    hide StateOk;
    hide Bounded;
    hide MarkOk;
    BoundedFacts(p, pos);
    hide Unhex;
    hide LengthDigit;
    UnhexRange(b);
    ChunkOk(p);
    if p.state == ChunkSize && b != CR && Unhex(b) != -1 {
      LengthDigitKeeps(p, Unhex(b), pos);
    } else {
      var s := StepChunk(p, b, pos);
      if s.status == Reading {
        ChunkOk(s.p);
        BoundedNext(p, s.p, pos);
      }
    }
  }

  lemma ChunkKeeps(p: Parser, b: byte, pos: nat)
    requires Sound(p, pos) && GroupOf(p.state) == Chunks
    ensures Keeps(StepChunk(p, b, pos), pos)
  {
    hide StateOk;
    ChunkGroup(p.state);
    hide GroupOf;
    hide Unhex;
    hide Seen;
    if p.state == ChunkSizeStart || p.state == ChunkSize || p.state == ChunkParameters {
      SizeKeeps(p, b, pos);
    } else {
      ChunkOk(p);
      var s := StepChunk(p, b, pos);
      if s.p.state == HeaderFieldStart { PlainOk(s.p); } else { ChunkOk(s.p); }
    }
  }

  lemma UnhexRange(b: byte)
    ensures -1 <= Unhex(b) < 16
  {
  }

  // ---- The switch -----------------------------------------------------------------------------

  /** Every byte keeps the invariant, and hands over well formed ranges. */
  lemma StepKeeps(p: Parser, b: byte, pos: nat)
    requires Sound(p, pos)
    ensures Keeps(StepByte(p, b, pos), pos)
  {
    hide StepStart;
    hide StepStatusLine;
    hide StepUrl;
    hide StepVersion;
    hide StepHeader;
    hide StepBody;
    hide StepChunk;
    hide GroupOf;
    hide StateOk;
    hide Bounded;
    hide Keeps;
    ReachedState(p);
    NotNever(p.state);
    match GroupOf(p.state)
    case Starting => StartKeeps(p, b, pos);
    case StatusLine => StatusLineKeeps(p, b, pos);
    case Target => UrlKeeps(p, b, pos);
    case Version => VersionKeeps(p, b, pos);
    case Headers => HeaderKeeps(p, b, pos);
    case Bodies => BodyKeeps(p, pos);
    case Chunks => ChunkKeeps(p, b, pos);
    case Never =>
  }

  lemma NotNever(s: State)
    ensures GroupOf(s) == Never <==> s == Dead
  {
  }

  // ---- The assertions of the source -------------------------------------------------------------

  /** The states that the recogniser of header names knows. */
  predicate InName(h: HeaderState) {
    match h
    case General | C | Co | Con | MatchingConnection | MatchingProxyConnection | MatchingContentLength
       | MatchingTransferEncoding | MatchingUpgrade | Connection | ContentLength | TransferEncoding | Upgrade => true
    case _ => false
  }

  /** What the source asserts before it reads the byte b, but for the counter that is never counted. */
  predicate Asserted(p: Parser, b: byte) {
    match p.state
    case Dead => false
    case HeaderField => Token(b) != 0 ==> InName(p.headerState)
    case HeaderValue => b != CR && b != LF ==> p.headerState != Connection && p.headerState != TransferEncoding
    case ChunkSizeStart | ChunkSize | ChunkParameters | ChunkSizeAlmostDone
       | ChunkData | ChunkDataAlmostDone | ChunkDataDone => p.flags.chunked
    case _ => true
  }

  /** No assertion fails in a state that is sound. */
  lemma AssertionsHold(p: Parser, b: byte, pos: nat)
    requires Sound(p, pos)
    ensures Asserted(p, b)
  {
    hide Bounded;
    ReachedState(p);
    if p.state == HeaderField {
      FieldOk(p);
    } else if p.state == HeaderValue {
      ValueOk(p);
    } else if InChunk(p.state) {
      ChunkOk(p);
    }
  }

  /** A parser as it is created, for requests or for responses. */
  lemma CreatedSound(kind: Kind, pos: nat)
    requires kind != Both
    ensures Sound(FRESH.(kind := kind, state := StartState(kind)), pos)
  {
  }
}
