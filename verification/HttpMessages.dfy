/**
 * The calls of a connection, message by message: whatever bytes come, each message is begun once and
 * completed at most once, every other call falls between the two, and no message begins before the one in
 * front of it is complete.
 */
module HttpMessages {
  import opened Common
  import opened HttpTypes
  import opened HttpStep
  import opened HttpInvariant
  import opened HttpRun
  import opened HttpStream

  /** Whether a message is open behind the calls, unless they are out of order. */
  function Within(inside: bool, es: seq<Event>): Option<bool>
    decreases |es|
  {
    if es == [] then Some(inside)
    else if es[0].MessageBegin? == inside then None
    else Within(!es[0].MessageComplete?, es[1..])
  }

  lemma {:induction false} WithinConcat(inside: bool, a: seq<Event>, b: seq<Event>)
    ensures Within(inside, a + b) ==
            match Within(inside, a) case None => None case Some(after) => Within(after, b)
    decreases |a|
  {
    if a == [] {
      assert a + b == b;
    } else {
      assert (a + b)[0] == a[0] && (a + b)[1..] == a[1..] + b;
      if a[0].MessageBegin? != inside { WithinConcat(!a[0].MessageComplete?, a[1..], b); }
    }
  }

  lemma WithinOne(inside: bool, e: Event)
    ensures Within(inside, [e]) == if e.MessageBegin? == inside then None else Some(!e.MessageComplete?)
  {
    assert [e][1..] == [];
  }

  /** Joining the pieces of a body changes nothing of this. */
  lemma WithinEmit(inside: bool, log: seq<Event>, e: Event)
    ensures Within(inside, Emit(log, e)) == Within(inside, log + [e])
  {
    hide Within;
    if Emit(log, e) != log + [e] {
      var first, last := log[..|log| - 1], log[|log| - 1];
      var joined := Body(last.from, e.to);
      assert log == first + [last];
      WithinConcat(inside, first, [joined]);
      WithinConcat(inside, first, [last]);
      WithinConcat(inside, log, [e]);
      match Within(inside, first) {
        case None =>
        case Some(after) =>
          WithinOne(after, joined);
          WithinOne(after, last);
          WithinOne(true, e);
      }
    }
  }

  lemma {:induction false} WithinEmitAll(inside: bool, log: seq<Event>, es: seq<Event>)
    ensures Within(inside, EmitAll(log, es)) == Within(inside, log + es)
    decreases |es|
  {
    hide Within;
    hide Emit;
    if es == [] {
      assert log + es == log;
    } else {
      WithinEmitAll(inside, Emit(log, es[0]), es[1..]);
      WithinEmit(inside, log, es[0]);
      WithinConcat(inside, Emit(log, es[0]), es[1..]);
      WithinConcat(inside, log + [es[0]], es[1..]);
      assert log + es == log + [es[0]] + es[1..];
    }
  }

  // ---- One step ---------------------------------------------------------------------------------

  /** A message is open at every state but the first. */
  predicate Inside(p: Parser) {
    p.state != StartReq
  }

  /** Whether a message is open behind a step: a parse that stops within a message leaves it open. */
  predicate InsideAfter(s: Step) {
    match s.status
    case Reading | Complete => Inside(s.p)
    case Switched => false
    case Failed | Overflowed => true
  }

  predicate Orderly(p: Parser, s: Step) {
    Within(Inside(p), s.events) == Some(InsideAfter(s))
  }

  lemma WithinTwo(inside: bool, d: Event, e: Event)
    ensures !d.MessageBegin? && !d.MessageComplete? && !e.MessageBegin? ==>
              Within(true, [d, e]) == Some(!e.MessageComplete?)
  {
    assert [d, e][1..] == [e];
    WithinOne(true, e);
  }

  lemma StartOrderly(p: Parser, b: byte)
    requires p.state == StartReq && p.kind == Request
    ensures Orderly(p, StepStart(p, b))
  {
    hide FirstMethod;
    hide IsAlpha;
    hide Seen;
    WithinOne(false, MessageBegin(Seen(MessageStart(p))));
  }

  lemma MethodOrderly(p: Parser, b: byte)
    requires p.state == ReqMethod
    ensures Orderly(p, StepStart(p, b))
  {
    hide NextMethod;
    hide MethodName;
  }

  /** Calls that neither begin nor complete a message. */
  predicate Plain(es: seq<Event>) {
    forall i :: 0 <= i < |es| ==> !es[i].MessageBegin? && !es[i].MessageComplete?
  }

  lemma {:induction false} PlainWithin(es: seq<Event>)
    requires Plain(es)
    ensures Within(true, es) == Some(true)
    decreases |es|
  {
    if es != [] { PlainWithin(es[1..]); }
  }

  lemma PlainOrderly(p: Parser, s: Step)
    requires Inside(p) && Plain(s.events) && InsideAfter(s)
    ensures Orderly(p, s)
  {
    hide Within;
    PlainWithin(s.events);
  }

  lemma UrlPlain(p: Parser, b: byte, pos: nat)
    requires GroupOf(p.state) == Target
    ensures Plain(StepUrl(p, b, pos).events) && InsideAfter(StepUrl(p, b, pos))
  {
    hide IsNum;
    hide IsAlpha;
    hide IsUrlChar;
    hide IsHostChar;
    hide Seen;
  }

  lemma VersionPlain(p: Parser, b: byte)
    requires GroupOf(p.state) == Version
    ensures Plain(StepVersion(p, b).events) && InsideAfter(StepVersion(p, b))
  {
    hide IsNum;
    hide Seen;
  }

  lemma HeadersDoneOrderly(p: Parser)
    requires Inside(p) && p.kind == Request
    ensures Orderly(p, StepHeadersDone(p))
  {
    hide ShouldKeepAlive;
    hide Seen;
    hide Within;
    var length := if p.contentLength > 0 then p.contentLength else 0;
    var q := p.(upgrade := p.upgrade || p.flags.upgrade || p.verb == CONNECT, savedLength := length);
    WithinOne(true, MessageComplete(Seen(p)));
    WithinOne(true, HeadersComplete(Seen(q)));
    WithinTwo(true, HeadersComplete(Seen(q)), MessageComplete(Seen(q)));
    assert [] + [MessageComplete(Seen(p))] == [MessageComplete(Seen(p))];
    assert [HeadersComplete(Seen(q))] + [MessageComplete(Seen(q))] == [HeadersComplete(Seen(q)), MessageComplete(Seen(q))];
  }

  lemma FieldStartOrderly(p: Parser, b: byte, pos: nat)
    requires p.state == HeaderFieldStart && p.kind == Request
    ensures Orderly(p, StepFieldStart(p, b, pos))
  {
    hide StepHeadersDone;
    hide Token;
    hide FirstHeader;
    HeadersDoneOrderly(p.(state := HeadersAlmostDone));
  }

  lemma FieldPlain(p: Parser, b: byte, pos: nat)
    requires Inside(p)
    ensures Plain(StepField(p, b, pos).events) && InsideAfter(StepField(p, b, pos))
  {
    hide Token;
    hide NextHeader;
    hide Seen;
  }

  lemma ValueStartPlain(p: Parser, b: byte, pos: nat)
    requires Inside(p)
    ensures Plain(StepValueStart(p, b, pos).events) && InsideAfter(StepValueStart(p, b, pos))
  {
    hide IsNum;
    hide Lower;
    hide Seen;
  }

  lemma ValuePlain(p: Parser, b: byte, pos: nat)
    requires Inside(p)
    ensures Plain(StepValue(p, b, pos).events) && InsideAfter(StepValue(p, b, pos))
  {
    hide NextValue;
    hide NotedFlags;
    hide IsNum;
    hide Seen;
  }

  lemma HeaderOrderly(p: Parser, b: byte, pos: nat)
    requires GroupOf(p.state) == Headers && p.kind == Request
    ensures Orderly(p, StepHeader(p, b, pos))
  {
    hide StepHeadersDone;
    hide StepFieldStart;
    hide StepField;
    hide StepValueStart;
    hide StepValue;
    hide NotedFlags;
    hide Within;
    hide Plain;
    HeadersDoneOrderly(p);
    FieldStartOrderly(p.(state := HeaderFieldStart), b, pos);
    FieldPlain(p, b, pos);
    ValueStartPlain(p, b, pos);
    ValuePlain(p, b, pos);
    NoCalls();
    var s := StepHeader(p, b, pos);
    if Plain(s.events) && InsideAfter(s) { PlainOrderly(p, s); }
  }

  lemma NoCalls()
    ensures Plain([]) && Within(true, []) == Some(true)
  {
  }

  lemma BodyOrderly(p: Parser, pos: nat)
    requires p.state == BodyIdentity && p.kind == Request
    ensures Orderly(p, StepBody(p, pos))
  {
    hide Seen;
    hide Within;
    var q := p.(contentLength := p.contentLength - 1);
    WithinOne(true, Body(pos, pos + 1));
    WithinTwo(true, Body(pos, pos + 1), MessageComplete(Seen(q)));
    assert [Body(pos, pos + 1)] + [MessageComplete(Seen(q))] == [Body(pos, pos + 1), MessageComplete(Seen(q))];
  }

  lemma ChunkPlain(p: Parser, b: byte, pos: nat)
    requires GroupOf(p.state) == Chunks
    ensures Plain(StepChunk(p, b, pos).events) && InsideAfter(StepChunk(p, b, pos))
  {
    hide Unhex;
    hide Seen;
  }

  /** The states of a request. */
  lemma RequestStates(p: Parser, pos: nat)
    requires Sound(p, pos) && p.kind == Request
    ensures GroupOf(p.state) != StatusLine && GroupOf(p.state) != Never
    ensures GroupOf(p.state) == Starting ==> p.state == StartReq || p.state == ReqMethod
    ensures GroupOf(p.state) == Bodies ==> p.state == BodyIdentity
    ensures GroupOf(p.state) != Starting ==> Inside(p)
  {
  }

  lemma StepOrderly(p: Parser, b: byte, pos: nat)
    requires Sound(p, pos) && p.kind == Request
    ensures Orderly(p, StepByte(p, b, pos))
  {
    RequestStates(p, pos);
    hide StepStart;
    hide StepStatusLine;
    hide StepUrl;
    hide StepVersion;
    hide StepHeader;
    hide StepBody;
    hide StepChunk;
    hide GroupOf;
    hide Sound;
    hide Orderly;
    hide Plain;
    match GroupOf(p.state)
    case Starting => if p.state == StartReq { StartOrderly(p, b); } else { MethodOrderly(p, b); }
    case Target => UrlPlain(p, b, pos); PlainOrderly(p, StepUrl(p, b, pos));
    case Version => VersionPlain(p, b); PlainOrderly(p, StepVersion(p, b));
    case Headers => HeaderOrderly(p, b, pos);
    case Bodies => BodyOrderly(p, pos);
    case Chunks => ChunkPlain(p, b, pos); PlainOrderly(p, StepChunk(p, b, pos));
    case StatusLine =>
    case Never =>
  }

  // ---- A connection -----------------------------------------------------------------------------

  /** Whether a message is open on a connection. */
  predicate Busy(c: Stream) {
    match c.status
    case Reading | Complete => Inside(c.p)
    case Switched => false
    case Failed | Overflowed => true
  }

  ghost predicate InOrder(c: Stream) {
    StreamOk(c) && c.status != Complete && Within(false, c.log) == Some(Busy(c))
  }

  lemma FeedInOrder(c: Stream, b: byte)
    requires InOrder(c)
    ensures InOrder(Feed(c, b))
  {
    hide StepByte;
    hide Sound;
    hide Within;
    hide EmitAll;
    FeedOk(c, b);
    if c.status == Reading {
      var s := StepByte(c.p, b, c.pos);
      StepOrderly(c.p, b, c.pos);
      WithinEmitAll(false, c.log, s.events);
      WithinConcat(false, c.log, s.events);
      StepKeeps(c.p, b, c.pos);
      StepRested(c.p, b, c.pos);
      assert s.status == Complete ==> !Inside(s.p);
    }
  }

  lemma {:induction false} FeedAllInOrder(c: Stream, data: seq<byte>)
    requires InOrder(c)
    ensures InOrder(FeedAll(c, data))
    decreases |data|
  {
    hide Feed;
    hide InOrder;
    if data != [] {
      FeedInOrder(c, data[0]);
      FeedAllInOrder(Feed(c, data[0]), data[1..]);
    }
  }

  /** Whatever bytes a connection gets, its calls are in order, and a message is open exactly when it is cut off. */
  lemma CallsInOrder(data: seq<byte>)
    ensures var c := FeedAll(OPENED, data); Within(false, c.log) == Some(Busy(c))
  {
    hide FeedAll;
    hide Busy;
    OpenedInOrder();
    FeedAllInOrder(OPENED, data);
  }

  /** The states in which nothing is cut off are those between messages. */
  lemma CutOffWithin(data: seq<byte>)
    requires FeedAll(OPENED, data).status == Reading
    ensures var c := FeedAll(OPENED, data);
            c.p.state == StartState(c.p.kind) || c.p.state == BodyIdentityEof <==> Within(false, c.log) == Some(false)
  {
    hide FeedAll;
    hide Within;
    OpenedInOrder();
    FeedAllInOrder(OPENED, data);
    RequestNotEof(FeedAll(OPENED, data).p, FeedAll(OPENED, data).pos);
  }

  lemma OpenedInOrder()
    ensures InOrder(OPENED)
  {
    OpenedOk();
  }

  /**
   * The calls that a connection made to its handlers, with any arrivals and any locks: they are in order;
   * a locked connection is between messages; a connection that was handed over has told of whole messages
   * only; and one that was closed owes its handler the end of a message.
   */
  lemma ConnectionInOrder(c: Connection)
    requires c.Valid()
    ensures Within(false, c.parser.calls) ==
            Some(match c.phase
                 case Open | Dangling => c.parser.saved.state != StartReq
                 case Http2 => false
                 case Handed => false
                 case _ => true)
    ensures c.phase == Open && !c.detect && c.lock ==> Within(false, c.parser.calls) == Some(false)
  {
    hide FeedAll;
    hide Within;
    hide Waiting;
    hide PREFACE;
    hide EmitAll;
    WithinEmitAll(false, [], c.parser.calls);
    assert [] + c.parser.calls == c.parser.calls;
    CallsInOrder(c.arrived);
    if c.phase == Open || c.phase == Dangling { CallsInOrder(c.arrived[..c.Position()]); }
    NothingWithin();
  }

  lemma NothingWithin()
    ensures Within(false, []) == Some(false)
  {
  }
}
