/**
 * The marks of the parser: where a target, a field name or a value started that is not over yet. Each is set
 * exactly in the states within its part of a message, so at most one of them is.
 */
module HttpMarks {
  import opened Common
  import opened HttpTypes
  import opened HttpStep
  import opened HttpInvariant
  import opened HttpRun

  predicate MarksOk(p: Parser) {
    && (p.urlMark.Some? <==> InTarget(p.state))
    && (p.fieldMark.Some? <==> p.state == HeaderField)
    && (p.valueMark.Some? <==> p.state == HeaderValue)
  }

  predicate HasMark(p: Parser) {
    p.urlMark.Some? || p.fieldMark.Some? || p.valueMark.Some?
  }

  /** The states within a target, a field name or a value. */
  predicate Inside(s: State) {
    InTarget(s) || s == HeaderField || s == HeaderValue
  }

  predicate MarksKept(s: Step) {
    s.status == Reading || s.status == Complete ==> MarksOk(s.p)
  }

  // ---- Where the marks and the ranges start -----------------------------------------------------

  predicate FromOk(mark: Option<nat>, floor: nat) {
    mark.Some? ==> floor <= mark.value
  }

  /** No mark is in front of a position. */
  predicate MarksFrom(p: Parser, floor: nat) {
    FromOk(p.urlMark, floor) && FromOk(p.fieldMark, floor) && FromOk(p.valueMark, floor)
  }

  predicate EventFrom(e: Event, floor: nat) {
    match e
    case Url(from, _, _) => floor <= from
    case FieldName(from, _, _) => floor <= from
    case FieldValue(from, _, _) => floor <= from
    case Body(from, _) => floor <= from
    case _ => true
  }

  predicate EventsFrom(es: seq<Event>, floor: nat) {
    forall i :: 0 <= i < |es| ==> EventFrom(es[i], floor)
  }

  /** A step sets no mark and hands over no range in front of a position. */
  predicate Starts(s: Step, floor: nat) {
    MarksFrom(s.p, floor) && EventsFrom(s.events, floor)
  }

  // ---- One step ---------------------------------------------------------------------------------

  /** A step that leaves the marks alone, outside the parts that have one. */
  predicate Unmarked(p: Parser, s: Step, pos: nat) {
    && (s.status == Reading || s.status == Complete ==> !Inside(s.p.state))
    && s.p.urlMark == p.urlMark && s.p.fieldMark == p.fieldMark && s.p.valueMark == p.valueMark
    && EventsFrom(s.events, pos)
  }

  lemma UnmarkedKeeps(p: Parser, s: Step, pos: nat, floor: nat)
    requires MarksOk(p) && MarksFrom(p, floor) && floor <= pos && !Inside(p.state) && Unmarked(p, s, pos)
    ensures MarksKept(s) && Starts(s, floor)
  {
  }

  /** Calls that hand over nothing, or a piece of body that starts here. */
  lemma QuietFrom(pos: nat)
    ensures EventsFrom([], pos)
    ensures forall s :: EventsFrom([MessageBegin(s)], pos) && EventsFrom([] + [Line(s)], pos)
  {
  }

  lemma StartUnmarked(p: Parser, b: byte, pos: nat)
    requires GroupOf(p.state) == Starting
    ensures Unmarked(p, StepStart(p, b), pos)
  {
    hide NextMethod;
    hide FirstMethod;
    hide MethodName;
    hide IsAlpha;
    hide Seen;
    hide EventsFrom;
    QuietFrom(pos);
  }

  lemma StatusLineUnmarked(p: Parser, b: byte, pos: nat)
    requires GroupOf(p.state) == StatusLine
    ensures Unmarked(p, StepStatusLine(p, b), pos)
  {
    hide IsNum;
    hide Seen;
    hide EventsFrom;
    QuietFrom(pos);
  }

  lemma VersionUnmarked(p: Parser, b: byte, pos: nat)
    requires GroupOf(p.state) == Version
    ensures Unmarked(p, StepVersion(p, b), pos)
  {
    hide IsNum;
    hide Seen;
    hide EventsFrom;
    QuietFrom(pos);
  }

  lemma BodyUnmarked(p: Parser, b: byte, pos: nat)
    requires GroupOf(p.state) == Bodies || GroupOf(p.state) == Chunks
    ensures Unmarked(p, if GroupOf(p.state) == Bodies then StepBody(p, pos) else StepChunk(p, b, pos), pos)
  {
    hide Unhex;
    hide Seen;
  }

  lemma HeadersDoneUnmarked(p: Parser, pos: nat)
    requires p.state == HeadersAlmostDone
    ensures Unmarked(p, StepHeadersDone(p), pos)
  {
    hide ShouldKeepAlive;
    hide Seen;
  }

  /** What is handed over at the end of a part starts at its mark. */
  lemma CallsFrom(p: Parser, pos: nat, floor: nat)
    requires MarksFrom(p, floor)
    ensures EventsFrom([], floor)
    ensures EventsFrom(UrlCall(p, pos), floor) && EventsFrom(FieldCall(p, pos), floor) && EventsFrom(ValueCall(p, pos), floor)
    ensures forall s :: EventsFrom(UrlCall(p, pos) + [Line(s)], floor)
  {
    hide Seen;
  }

  lemma EndStarts(p: Parser, b: byte, pos: nat, floor: nat)
    requires MarksFrom(p, floor)
    ensures Starts(EndOrFail(p, b, pos), floor) && Starts(StepAuthorityEnd(p, b, pos), floor)
  {
    hide EventsFrom;
    hide UrlCall;
    hide Seen;
    CallsFrom(p, pos, floor);
  }

  lemma UrlStarts(p: Parser, b: byte, pos: nat, floor: nat)
    requires GroupOf(p.state) == Target && MarksFrom(p, floor) && floor <= pos
    ensures Starts(StepUrl(p, b, pos), floor)
  {
    hide IsNum;
    hide IsAlpha;
    hide IsUrlChar;
    hide IsHostChar;
    hide EventsFrom;
    hide EndOrFail;
    hide StepAuthorityEnd;
    CallsFrom(p, pos, floor);
    EndStarts(p, b, pos, floor);
  }

  lemma UrlMarks(p: Parser, b: byte, pos: nat)
    requires GroupOf(p.state) == Target && MarksOk(p)
    ensures MarksKept(StepUrl(p, b, pos))
  {
    hide IsNum;
    hide IsAlpha;
    hide IsUrlChar;
    hide IsHostChar;
    hide UrlCall;
    hide Seen;
  }

  lemma FieldStartMarks(p: Parser, b: byte, pos: nat, floor: nat)
    requires p.state == HeaderFieldStart && MarksOk(p) && MarksFrom(p, floor) && floor <= pos
    ensures MarksKept(StepFieldStart(p, b, pos)) && Starts(StepFieldStart(p, b, pos), floor)
  {
    hide StepHeadersDone;
    hide Token;
    hide FirstHeader;
    HeadersDoneUnmarked(p.(state := HeadersAlmostDone), pos);
  }

  lemma FieldStarts(p: Parser, b: byte, pos: nat, floor: nat)
    requires p.state == HeaderField && MarksFrom(p, floor) && floor <= pos
    ensures Starts(StepField(p, b, pos), floor)
  {
    hide Token;
    hide NextHeader;
    hide EventsFrom;
    hide UrlCall;
    hide FieldCall;
    hide ValueCall;
    hide Seen;
    CallsFrom(p, pos, floor);
  }

  lemma FieldMarks(p: Parser, b: byte, pos: nat)
    requires p.state == HeaderField && MarksOk(p)
    ensures MarksKept(StepField(p, b, pos))
  {
    hide Token;
    hide NextHeader;
    hide FieldCall;
  }

  lemma FirstValueStarts(p: Parser, b: byte, pos: nat, floor: nat)
    requires p.state == HeaderValueStart && MarksFrom(p, floor) && floor <= pos
    ensures Starts(StepValueStart(p, b, pos), floor)
  {
    hide IsNum;
    hide Lower;
    hide EventsFrom;
    hide UrlCall;
    hide FieldCall;
    hide ValueCall;
    hide Seen;
    var q := p.(valueMark := Some(pos), state := HeaderValue, index := 0);
    CallsFrom(q, pos, floor);
  }

  lemma ValueStartMarks(p: Parser, b: byte, pos: nat)
    requires p.state == HeaderValueStart && MarksOk(p)
    ensures MarksKept(StepValueStart(p, b, pos))
  {
    hide IsNum;
    hide Lower;
    hide ValueCall;
  }

  lemma ValueStarts(p: Parser, b: byte, pos: nat, floor: nat)
    requires p.state == HeaderValue && MarksFrom(p, floor) && floor <= pos
    ensures Starts(StepValue(p, b, pos), floor)
  {
    hide NextValue;
    hide NotedFlags;
    hide IsNum;
    hide EventsFrom;
    hide UrlCall;
    hide FieldCall;
    hide ValueCall;
    hide Seen;
    CallsFrom(p, pos, floor);
  }

  lemma ValueMarks(p: Parser, b: byte, pos: nat)
    requires p.state == HeaderValue && MarksOk(p)
    ensures MarksKept(StepValue(p, b, pos))
  {
    hide NextValue;
    hide NotedFlags;
    hide IsNum;
    hide ValueCall;
  }

  lemma HeaderMarks(p: Parser, b: byte, pos: nat, floor: nat)
    requires GroupOf(p.state) == Headers && MarksOk(p) && MarksFrom(p, floor) && floor <= pos
    ensures MarksKept(StepHeader(p, b, pos)) && Starts(StepHeader(p, b, pos), floor)
  {
    hide StepHeadersDone;
    hide StepFieldStart;
    hide StepField;
    hide StepValueStart;
    hide StepValue;
    hide NotedFlags;
    match p.state
    case HeaderFieldStart => FieldStartMarks(p, b, pos, floor);
    case HeaderField => FieldMarks(p, b, pos); FieldStarts(p, b, pos, floor);
    case HeaderValueStart => ValueStartMarks(p, b, pos); FirstValueStarts(p, b, pos, floor);
    case HeaderValue => ValueMarks(p, b, pos); ValueStarts(p, b, pos, floor);
    case HeaderAlmostDone =>
    case HeaderValueLws => FieldStartMarks(p.(state := HeaderFieldStart), b, pos, floor);
    case HeadersAlmostDone => HeadersDoneUnmarked(p, pos);
  }

  lemma OutsideGroups(s: State)
    ensures GroupOf(s) == Starting || GroupOf(s) == StatusLine || GroupOf(s) == Version ==> !Inside(s)
    ensures GroupOf(s) == Bodies || GroupOf(s) == Chunks ==> !Inside(s)
  {
  }

  /** Every byte keeps each mark to its part of the message, and hands over what starts at a mark or at the byte. */
  lemma StepMarks(p: Parser, b: byte, pos: nat, floor: nat)
    requires MarksOk(p) && MarksFrom(p, floor) && floor <= pos
    ensures MarksKept(StepByte(p, b, pos)) && Starts(StepByte(p, b, pos), floor)
  {
    hide StepStart;
    hide StepStatusLine;
    hide StepUrl;
    hide StepVersion;
    hide StepHeader;
    hide StepBody;
    hide StepChunk;
    hide GroupOf;
    hide MarksOk;
    hide Inside;
    hide Unmarked;
    OutsideGroups(p.state);
    match GroupOf(p.state)
    case Starting => StartUnmarked(p, b, pos); UnmarkedKeeps(p, StepStart(p, b), pos, floor);
    case StatusLine => StatusLineUnmarked(p, b, pos); UnmarkedKeeps(p, StepStatusLine(p, b), pos, floor);
    case Target => UrlMarks(p, b, pos); UrlStarts(p, b, pos, floor);
    case Version => VersionUnmarked(p, b, pos); UnmarkedKeeps(p, StepVersion(p, b), pos, floor);
    case Headers => HeaderMarks(p, b, pos, floor);
    case Bodies => BodyUnmarked(p, b, pos); UnmarkedKeeps(p, StepBody(p, pos), pos, floor);
    case Chunks => BodyUnmarked(p, b, pos); UnmarkedKeeps(p, StepChunk(p, b, pos), pos, floor);
    case Never =>
  }

  // ---- The calls of a loop ----------------------------------------------------------------------

  /** The calls made since hand over what lies between two positions. */
  predicate CallsIn(calls: seq<Event>, was: seq<Event>, floor: nat, to: nat) {
    was <= calls && forall i :: |was| <= i < |calls| ==> EventFrom(calls[i], floor) && EventOk(calls[i], to)
  }

  /** A loop that has come to a position with a parser, and the calls it made since. */
  ghost predicate Tracked(p: Parser, calls: seq<Event>, was: seq<Event>, floor: nat, pos: nat) {
    floor <= pos && MarksOk(p) && MarksFrom(p, floor) && CallsIn(calls, was, floor, pos)
  }

  lemma TrackedBegins(p: Parser, calls: seq<Event>, floor: nat, pos: nat)
    requires floor <= pos && MarksOk(p) && MarksFrom(p, floor)
    ensures Tracked(p, calls, calls, floor, pos)
  {
  }

  lemma EventLater(e: Event, pos: nat, later: nat)
    requires EventOk(e, pos) && pos <= later
    ensures EventOk(e, later)
  {
  }

  lemma CallsLater(calls: seq<Event>, was: seq<Event>, floor: nat, pos: nat, later: nat)
    requires CallsIn(calls, was, floor, pos) && pos <= later
    ensures CallsIn(calls, was, floor, later)
  {
    hide EventOk;
    hide EventFrom;
    forall i | |was| <= i < |calls| ensures EventOk(calls[i], later) { EventLater(calls[i], pos, later); }
  }

  lemma CallsMore(calls: seq<Event>, was: seq<Event>, floor: nat, pos: nat, more: seq<Event>)
    requires CallsIn(calls, was, floor, pos) && EventsFrom(more, floor) && EventsOk(more, pos)
    ensures CallsIn(calls + more, was, floor, pos)
  {
    hide EventOk;
    hide EventFrom;
  }

  lemma CallsNone(calls: seq<Event>, floor: nat, to: nat)
    ensures CallsIn(calls, calls, floor, to)
  {
  }

  lemma CallsJoin(was: seq<Event>, calls: seq<Event>, more: seq<Event>, floor: nat, pos: nat)
    requires CallsIn(calls, was, floor, pos) && CallsIn(more, calls, floor, pos)
    ensures CallsIn(more, was, floor, pos)
  {
    hide EventOk;
    hide EventFrom;
    forall i | |was| <= i < |more| ensures EventFrom(more[i], floor) && EventOk(more[i], pos) {
      if i < |calls| { assert more[i] == calls[i]; }
    }
  }

  lemma TrackedStep(p: Parser, calls: seq<Event>, was: seq<Event>, floor: nat, b: byte, pos: nat)
    requires Sound(p, pos) && Tracked(p, calls, was, floor, pos)
    ensures var s := StepByte(p, b, pos);
            && CallsIn(calls + s.events, was, floor, pos + 1)
            && (s.status == Reading || s.status == Complete ==> Tracked(s.p, calls + s.events, was, floor, pos + 1))
  {
    hide StepByte;
    hide Sound;
    hide MarksOk;
    hide MarksFrom;
    hide CallsIn;
    hide EventsOk;
    hide EventsFrom;
    StepKeeps(p, b, pos);
    StepMarks(p, b, pos, floor);
    CallsLater(calls, was, floor, pos, pos + 1);
    CallsMore(calls, was, floor, pos + 1, StepByte(p, b, pos).events);
  }

  /** Taking a part of a body, outside everything that has a mark. */
  lemma TrackedBody(p: Parser, calls: seq<Event>, was: seq<Event>, floor: nat, pos: nat, q: Parser, to: nat)
    requires Tracked(p, calls, was, floor, pos) && pos < to
    requires p.state == BodyIdentity || p.state == ChunkData || p.state == BodyIdentityEof
    requires !Inside(q.state) && q.urlMark == p.urlMark && q.fieldMark == p.fieldMark && q.valueMark == p.valueMark
    ensures Tracked(q, calls + [Body(pos, to)], was, floor, to)
  {
    hide CallsIn;
    CallsLater(calls, was, floor, pos, to);
    CallsMore(calls, was, floor, to, [Body(pos, to)]);
  }

  /** The end of a message. */
  lemma TrackedComplete(p: Parser, calls: seq<Event>, was: seq<Event>, floor: nat, pos: nat, seen: Snapshot)
    requires Tracked(p, calls, was, floor, pos) && !Inside(p.state)
    ensures Tracked(p.(state := StartState(p.kind)), calls + [MessageComplete(seen)], was, floor, pos)
  {
    hide CallsIn;
    CallsMore(calls, was, floor, pos, [MessageComplete(seen)]);
  }

  lemma TrackedEnds(p: Parser, calls: seq<Event>, was: seq<Event>, floor: nat, pos: nat, to: nat)
    requires Tracked(p, calls, was, floor, pos) && pos <= to
    ensures MarksOk(p) && MarksFrom(p, floor) && CallsIn(calls, was, floor, to)
    ensures MarksOk(p.(index := p.index % 256)) && MarksFrom(p.(index := p.index % 256), floor)
  {
    CallsLater(calls, was, floor, pos, to);
  }

  lemma OutsideBodies()
    ensures !Inside(BodyIdentity) && !Inside(BodyIdentityEof) && !Inside(ChunkData) && !Inside(ChunkDataAlmostDone)
  {
  }

  // ---- A connection -----------------------------------------------------------------------------

  predicate StreamMarked(c: Stream) {
    c.status == Reading ==> MarksOk(c.p)
  }

  lemma FeedMarks(c: Stream, b: byte)
    requires StreamMarked(c)
    ensures StreamMarked(Feed(c, b))
  {
    hide StepByte;
    hide EmitAll;
    if c.status == Reading { StepMarks(c.p, b, c.pos, 0); }
  }

  lemma {:induction false} FeedAllMarks(c: Stream, data: seq<byte>)
    requires StreamMarked(c)
    ensures StreamMarked(FeedAll(c, data))
    decreases |data|
  {
    hide Feed;
    hide StreamMarked;
    if data != [] {
      FeedMarks(c, data[0]);
      FeedAllMarks(Feed(c, data[0]), data[1..]);
    }
  }

  /** The bytes of a connection end inside a target, a field name or a value. */
  predicate EndsInside(data: seq<byte>) {
    var c := FeedAll(OPENED, data);
    c.status == Reading && Inside(c.p.state)
  }

  /** Behind any bytes a mark is set exactly when they end inside of what it marks. */
  lemma MarkedInside(data: seq<byte>)
    requires FeedAll(OPENED, data).status == Reading
    ensures HasMark(FeedAll(OPENED, data).p) <==> EndsInside(data)
    ensures MarksOk(FeedAll(OPENED, data).p)
  {
    hide FeedAll;
    FeedAllMarks(OPENED, data);
  }

  lemma NothingInside()
    ensures !EndsInside([]) && !HasMark(FRESH)
  {
  }
}
