/**
 * The request line (section 3 of RFC 9112) through the HTTP/1.1 parser: a method name, a target and a version,
 * with any line ends in front of it and any spaces between its parts.
 */
module HttpRequestLine {
  import opened Common
  import opened HttpTypes
  import opened HttpStep
  import opened HttpRun
  import opened HttpMethods
  import opened HttpTargets
  import opened HttpVersions

  // ---- The method -------------------------------------------------------------------------------

  lemma FirstLetterStep(p: Parser, m: nat, pos: nat)
    requires p.state == StartReq && 1 <= m <= 24
    ensures StepByte(p, Letter(m, 0), pos) ==
            Step(MessageStart(p).(verb := Candidate(m, 1), index := 1, state := ReqMethod),
                 [MessageBegin(Seen(MessageStart(p)))], Reading)
  {
    hide MethodName;
    hide FirstMethod;
    hide Letter;
    hide IsAlpha;
    CandidateEnds(m);
    LetterRange(m, 0);
    CandidateRange(m);
  }

  lemma CandidateRange(m: nat)
    requires 1 <= m <= 24
    ensures 1 <= Candidate(m, 1) <= 24
  {
  }

  /** A method name and the space behind it. */
  lemma MethodTaken(p: Parser, log: seq<Event>, m: nat, base: nat)
    requires p.state == StartReq && 1 <= m <= 24
    ensures Takes(p, log, Ascii(MethodName(m)) + [32], base,
                  MessageStart(p).(verb := m, index := |MethodName(m)| + 1, state := ReqSpacesBeforeUrl),
                  log + [MessageBegin(Seen(MessageStart(p)))])
  {
    hide MethodName;
    hide StepByte;
    hide Process;
    hide Candidate;
    hide Seen;
    var name := Ascii(MethodName(m));
    var q := MessageStart(p).(verb := Candidate(m, 1), index := 1, state := ReqMethod);
    var next := log + [MessageBegin(Seen(MessageStart(p)))];
    CandidateEnds(m);
    LetterRange(m, 0);
    FirstLetterStep(p, m, base);
    TakesOne(p, log, Letter(m, 0), base);
    EmitQuiet(log, MessageBegin(Seen(MessageStart(p))));
    NameAccepted(q, next, m, 1, base + 1);
    TakesBoth(p, log, [Letter(m, 0)], base, q, next, name[1..] + [32],
              q.(verb := m, index := |MethodName(m)| + 1, state := ReqSpacesBeforeUrl), next);
    assert name + [32] == [Letter(m, 0)] + (name[1..] + [32]);
  }

  // ---- What is skipped --------------------------------------------------------------------------

  predicate Breaks(s: seq<byte>) {
    forall i :: 0 <= i < |s| ==> s[i] == CR || s[i] == LF
  }

  predicate Spaces(s: seq<byte>) {
    forall i :: 0 <= i < |s| ==> s[i] == 32
  }

  lemma BreakStep(p: Parser, b: byte, pos: nat)
    requires p.state == StartReq && (b == CR || b == LF)
    ensures StepByte(p, b, pos) == Go(p)
  {
  }

  /** Line ends in front of a request change nothing. */
  lemma {:induction false} BreaksTaken(p: Parser, log: seq<Event>, s: seq<byte>, base: nat)
    requires p.state == StartReq && Breaks(s)
    ensures Takes(p, log, s, base, p, log)
    decreases |s|
  {
    hide StepByte;
    hide Takes;
    if s == [] {
      TakesNone(p, log, base);
    } else {
      BreakStep(p, s[0], base);
      TakesOne(p, log, s[0], base);
      EmitNone(log);
      BreaksTaken(p, log, s[1..], base + 1);
      TakesBoth(p, log, [s[0]], base, p, log, s[1..], p, log);
      assert s == [s[0]] + s[1..];
    }
  }

  lemma SpaceStep(p: Parser, pos: nat)
    requires p.state == ReqSpacesBeforeUrl || p.state == ReqHttpStart
    ensures StepByte(p, 32, pos) == Go(p)
  {
  }

  /** Nor do spaces in front of the target or the version. */
  lemma {:induction false} SpacesTaken(p: Parser, log: seq<Event>, s: seq<byte>, base: nat)
    requires (p.state == ReqSpacesBeforeUrl || p.state == ReqHttpStart) && Spaces(s)
    ensures Takes(p, log, s, base, p, log)
    decreases |s|
  {
    hide StepByte;
    hide Takes;
    if s == [] {
      TakesNone(p, log, base);
    } else {
      SpaceStep(p, base);
      TakesOne(p, log, 32, base);
      EmitNone(log);
      SpacesTaken(p, log, s[1..], base + 1);
      TakesBoth(p, log, [32], base, p, log, s[1..], p, log);
      assert s == [32] + s[1..];
    }
  }

  // ---- Whole request lines ------------------------------------------------------------------------

  datatype RequestLine = RequestLine(blank: seq<byte>, verb: nat, pad: seq<byte>, target: seq<byte>, gap: seq<byte>,
                                     version: seq<byte>, major: nat, minor: nat)

  predicate RequestLineOk(l: RequestLine) {
    && Breaks(l.blank) && 1 <= l.verb <= 24 && Spaces(l.pad) && Spaces(l.gap)
    && IsTarget(l.verb == CONNECT, l.target) && VersionForm(l.version, l.major, l.minor)
  }

  /** The wire up to the target. */
  function MethodWire(l: RequestLine): seq<byte> {
    l.blank + (Ascii(MethodName(l.verb)) + [32]) + l.pad
  }

  function LineWire(l: RequestLine): seq<byte> {
    MethodWire(l) + (l.target + [32]) + l.gap + (l.version + [LF])
  }

  /** What handlers see of a request within its line, and behind it. */
  function Begun(verb: nat): Parser {
    MessageStart(FRESH).(verb := verb)
  }

  function Headed(l: RequestLine): Parser {
    Begun(l.verb).(major := l.major, minor := l.minor)
  }

  function LineCalls(l: RequestLine, base: nat): seq<Event> {
    var at := base + |MethodWire(l)|;
    [MessageBegin(Seen(MessageStart(FRESH))), Url(at, at + |l.target|, Seen(Begun(l.verb))), Line(Seen(Headed(l)))]
  }

  predicate Fresh(p: Parser) {
    p == FRESH.(index := p.index)
  }

  /** A fresh parser behind the method, and behind the line. */
  function AtTarget(p: Parser, l: RequestLine): Parser {
    MessageStart(p).(verb := l.verb, index := |MethodName(l.verb)| + 1, state := ReqSpacesBeforeUrl)
  }

  function AfterLine(p: Parser, l: RequestLine): Parser {
    AtTarget(p, l).(major := l.major, minor := l.minor, state := HeaderFieldStart)
  }

  lemma LineSeen(p: Parser, l: RequestLine)
    requires Fresh(p)
    ensures p.state == StartReq && AtTarget(p, l).state == ReqSpacesBeforeUrl && AtTarget(p, l).urlMark == None
    ensures AtTarget(p, l).verb == l.verb
    ensures Seen(MessageStart(p)) == Seen(MessageStart(FRESH))
    ensures Seen(AtTarget(p, l)) == Seen(Begun(l.verb))
    ensures Seen(AfterLine(p, l)) == Seen(Headed(l))
    ensures Versioned(AtTarget(p, l).(urlMark := None, state := ReqHttpStart), l.major, l.minor) == AfterLine(p, l)
  {
  }

  lemma LineParts(l: RequestLine)
    requires RequestLineOk(l)
    ensures Breaks(l.blank) && 1 <= l.verb <= 24 && Spaces(l.pad) && Spaces(l.gap)
    ensures IsTarget(l.verb == CONNECT, l.target) && l.target != [] && l.target[0] != 32
    ensures VersionForm(l.version, l.major, l.minor) && l.version != [] && l.version[0] != 32
    ensures LineWire(l) == MethodWire(l) + (l.target + [32]) + l.gap + (l.version + [LF])
  {
    hide AllTarget;
    hide HostForm;
    hide SchemeForm;
    hide MajorForm;
  }

  lemma MethodWireIs(l: RequestLine)
    ensures MethodWire(l) == l.blank + (Ascii(MethodName(l.verb)) + [32]) + l.pad
    ensures |MethodWire(l)| == |l.blank + (Ascii(MethodName(l.verb)) + [32])| + |l.pad|
  {
  }

  lemma AtTargetIs(p: Parser, l: RequestLine)
    ensures AtTarget(p, l) ==
            MessageStart(p).(verb := l.verb, index := |MethodName(l.verb)| + 1, state := ReqSpacesBeforeUrl)
  {
  }

  /** The line up to its target. */
  lemma ToTarget(p: Parser, log: seq<Event>, l: RequestLine, base: nat)
    requires Fresh(p) && RequestLineOk(l)
    ensures Takes(p, log, MethodWire(l), base, AtTarget(p, l), log + [MessageBegin(Seen(MessageStart(FRESH)))])
  {
    hide *;
    LineParts(l);
    LineSeen(p, l);
    MethodWireIs(l);
    AtTargetIs(p, l);
    var name, next := Ascii(MethodName(l.verb)) + [32], log + [MessageBegin(Seen(MessageStart(FRESH)))];
    var q := AtTarget(p, l);
    BreaksTaken(p, log, l.blank, base);
    MethodTaken(p, log, l.verb, base + |l.blank|);
    TakesBoth(p, log, l.blank, base, p, log, name, q, next);
    SpacesTaken(q, next, l.pad, base + |l.blank + name|);
    TakesBoth(p, log, l.blank + name, base, q, next, l.pad, q, next);
  }

  lemma LineCallsAre(l: RequestLine, log: seq<Event>, base: nat)
    ensures var at := base + |MethodWire(l)|;
            log + LineCalls(l, base) ==
            log + [MessageBegin(Seen(MessageStart(FRESH)))] + [Url(at, at + |l.target|, Seen(Begun(l.verb)))]
            + [Line(Seen(Headed(l)))]
  {
  }

  /** A request line makes three calls: the message begins, its target is handed over whole, its line is over. */
  lemma LineTaken(p: Parser, log: seq<Event>, l: RequestLine, base: nat)
    requires Fresh(p) && RequestLineOk(l)
    ensures Takes(p, log, LineWire(l), base, AfterLine(p, l), log + LineCalls(l, base))
  {
    hide *;
    LineParts(l);
    LineSeen(p, l);
    LineCallsAre(l, log, base);
    var name, target, version := MethodWire(l), l.target + [32], l.version + [LF];
    var one := log + [MessageBegin(Seen(MessageStart(FRESH)))];
    var at := base + |name|;
    var two := one + [Url(at, at + |l.target|, Seen(Begun(l.verb)))];
    var q := AtTarget(p, l);
    var r := q.(urlMark := None, state := ReqHttpStart);
    ToTarget(p, log, l, base);
    TargetExact(q, one, l.target, at);
    TakesBoth(p, log, name, base, q, one, target, r, two);
    SpacesTaken(r, two, l.gap, base + |name + target|);
    TakesBoth(p, log, name + target, base, r, two, l.gap, r, two);
    VersionExact(r, two, l.version, base + |name + target + l.gap|, l.major, l.minor);
    TakesBoth(p, log, name + target + l.gap, base, r, two, version, AfterLine(p, l), log + LineCalls(l, base));
  }

  // ---- Lines without a version --------------------------------------------------------------------

  /** The parser behind a request line without a version. */
  function Unversioned(p: Parser): Parser {
    p.(urlMark := None, major := 0, minor := 9, state := HeaderFieldStart)
  }

  lemma {:induction false} PathRead(p: Parser, log: seq<Event>, t: seq<byte>, base: nat) returns (q: Parser)
    requires InPath(p.state) && p.urlMark.Some? && AllTarget(t)
    ensures Takes(p, log, t, base, q, log) && q == p.(state := q.state) && InPath(q.state)
    decreases |t|
  {
    hide StepByte;
    hide Takes;
    hide AllTarget;
    hide Seen;
    if t == [] {
      TakesNone(p, log, base);
      q := p;
    } else {
      assert t == [t[0]] + t[1..];
      AllTargetNext(t[0], t[1..]);
      var r := PathNext(p, t[0], t[1..], base);
      TakesOne(p, log, t[0], base);
      EmitNone(log);
      q := PathRead(r, log, t[1..], base + 1);
      TakesBoth(p, log, [t[0]], base, r, log, t[1..], q, log);
    }
  }

  lemma PathNext(p: Parser, b: byte, t: seq<byte>, pos: nat) returns (q: Parser)
    requires InPath(p.state) && TargetChar(b)
    ensures StepByte(p, b, pos) == Go(q) && q == p.(state := q.state) && InPath(q.state)
  {
    hide EndOrFail;
    q := StepByte(p, b, pos).p;
  }

  lemma PathFirst(p: Parser, b: byte, pos: nat)
    requires p.state == ReqSpacesBeforeUrl && (b == Ch('/') || b == Ch('*'))
    ensures StepByte(p, b, pos) == Go(p.(urlMark := Some(pos), state := ReqPath))
  {
  }

  lemma PathEnd(p: Parser, b: byte, pos: nat)
    requires InPath(p.state) && (b == CR || b == LF)
    ensures StepByte(p, b, pos) == EndOrFail(p, b, pos)
  {
    hide EndOrFail;
  }

  lemma LastLineFeed(p: Parser, pos: nat)
    requires p.state == ReqLineAlmostDone
    ensures StepByte(p, LF, pos) == LineDone(p, [])
  {
  }

  /** The line feed behind a path, and a carriage return in front of it. */
  lemma ShortSteps(p: Parser, pos: nat, mark: nat)
    requires InPath(p.state) && p.urlMark == Some(mark)
    ensures StepByte(p, LF, pos) ==
            Step(Unversioned(p), [Url(mark, pos, Seen(p))] + [Line(Seen(Unversioned(p)))], Reading)
    ensures var q := p.(urlMark := None, major := 0, minor := 9, state := ReqLineAlmostDone);
            && StepByte(p, CR, pos) == Step(q, [Url(mark, pos, Seen(p))], Reading)
            && StepByte(q, LF, pos + 1) == Step(Unversioned(p), [Line(Seen(Unversioned(p)))], Reading)
  {
    hide StepByte;
    hide Seen;
    PathEnd(p, LF, pos);
    PathEnd(p, CR, pos);
    var q := p.(urlMark := None, major := 0, minor := 9, state := ReqLineAlmostDone);
    LastLineFeed(q, pos + 1);
    SeenAnywhere(q, Unversioned(p));
    SeenAnywhere(p.(urlMark := None, major := 0, minor := 9), Unversioned(p));
    assert [] + [Line(Seen(q))] == [Line(Seen(q))];
  }

  lemma EmitCallPair(log: seq<Event>, d: Event, e: Event)
    requires !d.Body? && !e.Body?
    ensures EmitAll(log, [d] + [e]) == log + [d, e] && EmitAll(EmitAll(log, [d]), [e]) == log + [d, e]
  {
    EmitTwo(log, d, e);
    EmitQuiet(log, d);
    EmitQuiet(log + [d], e);
    assert [d] + [e] == [d, e];
    assert log + [d] + [e] == log + [d, e];
  }

  /** A path at the end of the line is a request of version 0.9, at which header lines may follow as well. */
  lemma ShortLineTaken(p: Parser, log: seq<Event>, t: seq<byte>, end: seq<byte>, base: nat)
    requires p.state == ReqSpacesBeforeUrl && PathForm(t) && (end == [LF] || end == [CR] + [LF])
    ensures var q := Unversioned(p);
            Takes(p, log, t + end, base, q, log + [Url(base, base + |t|, Seen(p)), Line(Seen(q))])
  {
    hide *;
    PathFormIs(t);
    var r := p.(urlMark := Some(base), state := ReqPath);
    PathFirst(p, t[0], base);
    GoIs(r);
    TakesOne(p, log, t[0], base);
    EmitNone(log);
    PathState(ReqPath);
    var q := PathRead(r, log, t[1..], base + 1);
    TakesBoth(p, log, [t[0]], base, r, log, t[1..], q, log);
    assert t == [t[0]] + t[1..];
    var at, url, line := base + |t|, Url(base, base + |t|, Seen(p)), Line(Seen(Unversioned(p)));
    SeenAnywhere(p, q);
    UnversionedSame(p, q);
    ShortSteps(q, at, base);
    EmitCallPair(log, url, line);
    var last := Unversioned(p);
    if end == [LF] {
      TakesOne(q, log, LF, at);
      TakesBoth(p, log, t, base, q, log, [LF], last, log + [url, line]);
    } else {
      var c := q.(urlMark := None, major := 0, minor := 9, state := ReqLineAlmostDone);
      TakesOne(q, log, CR, at);
      TakesOne(c, EmitAll(log, [url]), LF, at + 1);
      TakesBoth(q, log, [CR], at, c, EmitAll(log, [url]), [LF], last, log + [url, line]);
      TakesBoth(p, log, t, base, q, log, [CR] + [LF], last, log + [url, line]);
    }
  }

  lemma PathFormIs(t: seq<byte>)
    requires PathForm(t)
    ensures t != [] && (t[0] == Ch('/') || t[0] == Ch('*')) && AllTarget(t[1..])
  {
  }

  lemma PathState(s: State)
    requires s == ReqPath
    ensures InPath(s)
  {
  }

  lemma UnversionedSame(p: Parser, q: Parser)
    requires q == p.(urlMark := q.urlMark, state := q.state)
    ensures Unversioned(q) == Unversioned(p)
  {
  }

  /** Behind a host or a port the line cannot end without a version. */
  lemma AuthorityNeedsVersion(p: Parser, b: byte, pos: nat)
    requires (p.state == ReqHost || p.state == ReqPort) && (b == CR || b == LF)
    ensures StepByte(p, b, pos).status == Failed
  {
  }
}
