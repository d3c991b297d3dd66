/**
 * Responses through the HTTP/1.1 parser: the status line (section 4 of RFC 9112), and a body that ends with the
 * connection (section 6.3).
 */
module HttpResponse {
  import opened Common
  import opened HttpTypes
  import opened HttpStep
  import opened HttpRun
  import opened HttpHeaderLines
  import HttpRequest
  import HttpTargets
  import HttpVersions

  // ---- The form -----------------------------------------------------------------------------------

  /** Digits, of which the first is no smaller than the least one, that come to a value of at most three digits. */
  predicate Number(d: seq<byte>, least: char, value: nat) {
    d != [] && IsNum(d[0]) && Ch(least) <= d[0] && HttpVersions.Reaches(d[0] - 48, d[1..], value)
  }

  /** The reason behind a status code: nothing, or a space and bytes up to the end of the line. */
  predicate Reason(t: seq<byte>) {
    t == [] || (t[0] == 32 && forall i :: 0 <= i < |t| ==> t[i] != CR && t[i] != LF)
  }

  /**
   * A status line: an H, the place of the letters TTP and a slash, at which the source takes any four bytes, two
   * numbers, any spaces behind the first one, the code, and the reason.
   */
  datatype StatusLine = StatusLine(word: seq<byte>, major: seq<byte>, minor: seq<byte>, pad: seq<byte>, code: seq<byte>,
                                   reason: seq<byte>, end: seq<byte>)

  datatype Numbers = Numbers(major: nat, minor: nat, code: nat)

  predicate StatusLineOk(l: StatusLine, n: Numbers) {
    && |l.word| == 4 && Number(l.major, '1', n.major) && Number(l.minor, '0', n.minor)
    && (forall i :: 0 <= i < |l.pad| ==> l.pad[i] == 32) && Number(l.code, '0', n.code)
    && Reason(l.reason) && LineEnd(l.end)
  }

  function VersionWire(l: StatusLine): seq<byte> {
    [72] + l.word + (l.major + [46]) + (l.minor + [32])
  }

  function StatusWire(l: StatusLine): seq<byte> {
    VersionWire(l) + l.pad + l.code + l.reason + l.end
  }

  // ---- Numbers ------------------------------------------------------------------------------------

  /** The parser with more digits of a number read: of the major or minor version, or of the code. */
  function Counted(p: Parser, value: nat): Parser {
    match p.state
    case ResMajor => p.(major := value)
    case ResMinor => p.(minor := value)
    case _ => p.(statusCode := value)
  }

  function CountOf(p: Parser): nat {
    match p.state
    case ResMajor => p.major
    case ResMinor => p.minor
    case _ => p.statusCode
  }

  predicate InNumber(s: State) {
    s == ResMajor || s == ResMinor || s == ResStatusCode
  }

  lemma DigitStep(p: Parser, b: byte, pos: nat)
    requires InNumber(p.state) && IsNum(b)
    ensures var value := CountOf(p) * 10 + (b - 48);
            if value <= 999 then StepByte(p, b, pos) == Go(Counted(p, value)) else StepByte(p, b, pos).status == Failed
  {
  }

  lemma CountedFacts(p: Parser, v: nat, w: nat)
    requires InNumber(p.state)
    ensures Counted(p, v).state == p.state && CountOf(Counted(p, v)) == v && Counted(Counted(p, v), w) == Counted(p, w)
    ensures Counted(p, CountOf(p)) == p
  {
  }

  /** Digits behind the first, as long as the number has no more than three. */
  lemma {:induction false} DigitsTaken(p: Parser, log: seq<Event>, d: seq<byte>, base: nat, value: nat)
    requires InNumber(p.state) && HttpVersions.Reaches(CountOf(p), d, value)
    ensures Takes(p, log, d, base, Counted(p, value), log)
    decreases |d|
  {
    hide *;
    CountedFacts(p, value, value);
    if d == [] {
      HttpVersions.ReachesNone(CountOf(p), value);
      TakesNone(p, log, base);
    } else {
      assert d == [d[0]] + d[1..];
      HttpVersions.ReachesNext(CountOf(p), d[0], d[1..], value);
      HttpVersions.DigitLow(d[0]);
      var next: nat := CountOf(p) * 10 + (d[0] - 48);
      var q := Counted(p, next);
      DigitStep(p, d[0], base);
      GoIs(q);
      CountedFacts(p, next, value);
      TakesOne(p, log, d[0], base);
      EmitNone(log);
      DigitsTaken(q, log, d[1..], base + 1, value);
      TakesBoth(p, log, [d[0]], base, q, log, d[1..], Counted(q, value), log);
    }
  }

  /** A number of more than three digits fails. */
  lemma LargeNumber(p: Parser, log: seq<Event>, b: byte, rest: seq<byte>, base: nat)
    requires InNumber(p.state) && IsNum(b) && CountOf(p) * 10 + (b - 48) > 999
    ensures Process(p, log, [b] + rest, base).status == Failed
  {
    hide StepByte;
    hide Process;
    DigitStep(p, b, base);
    ProcessStep(p, log, [b] + rest, base);
  }

  /** The state in which the first digit of a number is read, and the least one. */
  function Least(s: State): char {
    if s == ResFirstMajor then '1' else '0'
  }

  function Within(s: State): State {
    match s
    case ResFirstMajor => ResMajor
    case ResFirstMinor => ResMinor
    case _ => ResStatusCode
  }

  lemma FirstDigit(p: Parser, b: byte, pos: nat)
    requires p.state == ResFirstMajor || p.state == ResFirstMinor || p.state == ResFirstStatus
    requires Ch(Least(p.state)) <= b <= Ch('9')
    ensures StepByte(p, b, pos) == Go(Counted(p.(state := Within(p.state)), b - 48))
    ensures InNumber(Within(p.state))
  {
  }

  lemma NumberIs(d: seq<byte>, least: char, value: nat)
    requires Number(d, least, value)
    ensures d != [] && Ch(least) <= d[0] <= Ch('9') && d[0] >= 48
    ensures HttpVersions.Reaches(d[0] - 48, d[1..], value) && d == [d[0]] + d[1..]
  {
    hide HttpVersions.Reaches;
  }

  /** A whole number. */
  lemma NumberTaken(p: Parser, log: seq<Event>, d: seq<byte>, base: nat, value: nat)
    requires p.state == ResFirstMajor || p.state == ResFirstMinor || p.state == ResFirstStatus
    requires Number(d, Least(p.state), value)
    ensures Takes(p, log, d, base, Counted(p.(state := Within(p.state)), value), log)
  {
    hide *;
    NumberIs(d, Least(p.state), value);
    var q := p.(state := Within(p.state));
    var r := Counted(q, d[0] - 48);
    FirstDigit(p, d[0], base);
    CountedFacts(q, d[0] - 48, value);
    GoIs(r);
    TakesOne(p, log, d[0], base);
    EmitNone(log);
    DigitsTaken(r, log, d[1..], base + 1, value);
    TakesBoth(p, log, [d[0]], base, r, log, d[1..], Counted(r, value), log);
  }

  // ---- What stands between them -------------------------------------------------------------------

  /** One more byte that makes no call. */
  lemma ByteTaken(p: Parser, log: seq<Event>, a: seq<byte>, base: nat, q: Parser, next: seq<Event>, b: byte, r: Parser)
    requires Takes(p, log, a, base, q, next) && StepByte(q, b, base + |a|) == Go(r)
    ensures Takes(p, log, a + [b], base, r, next)
  {
    hide *;
    GoIs(r);
    TakesOne(q, next, b, base + |a|);
    EmitNone(next);
    TakesBoth(p, log, a, base, q, next, [b], r, next);
  }

  /** The state behind a byte of the word at the start. */
  function NextInWord(s: State): State {
    match s
    case ResH => ResHt
    case ResHt => ResHtt
    case ResHtt => ResHttp
    case _ => ResFirstMajor
  }

  lemma WordStep(p: Parser, b: byte, pos: nat)
    requires p.state == ResH || p.state == ResHt || p.state == ResHtt || p.state == ResHttp
    ensures StepByte(p, b, pos) == Go(p.(state := NextInWord(p.state)))
  {
  }

  lemma BehindSteps(p: Parser, pos: nat)
    ensures p.state == ResMajor ==> StepByte(p, 46, pos) == Go(p.(state := ResFirstMinor))
    ensures p.state == ResMinor ==> StepByte(p, 32, pos) == Go(p.(state := ResFirstStatus))
  {
  }

  /** A message begins with an H; the source lets one begin at every line end in front of it as well. */
  lemma StartStep(p: Parser, b: byte, pos: nat)
    requires p.state == StartRes
    ensures var s := StepByte(p, b, pos);
            && s.events == [MessageBegin(Seen(MessageStart(p)))]
            && s.p == MessageStart(p).(state := if b == Ch('H') then ResH else StartRes)
            && s.status == if b == Ch('H') || b == CR || b == LF then Reading else Failed
  {
    hide Seen;
  }

  lemma CapitalH()
    ensures Ch('H') == 72
  {
  }

  lemma WordNext(p: Parser, log: seq<Event>, a: seq<byte>, base: nat, q: Parser, next: seq<Event>, b: byte)
    requires Takes(p, log, a, base, q, next)
    requires q.state == ResH || q.state == ResHt || q.state == ResHtt || q.state == ResHttp
    ensures Takes(p, log, a + [b], base, q.(state := NextInWord(q.state)), next)
  {
    hide *;
    WordStep(q, b, base + |a|);
    ByteTaken(p, log, a, base, q, next, b, q.(state := NextInWord(q.state)));
  }

  lemma WordStates()
    ensures NextInWord(ResH) == ResHt && NextInWord(ResHt) == ResHtt && NextInWord(ResHtt) == ResHttp
    ensures NextInWord(ResHttp) == ResFirstMajor
  {
  }

  /** The word at the start of the line. */
  lemma WordTaken(p: Parser, log: seq<Event>, word: seq<byte>, base: nat)
    requires p.state == StartRes && |word| == 4
    ensures Takes(p, log, [72] + word, base, MessageStart(p).(state := ResFirstMajor),
                  log + [MessageBegin(Seen(MessageStart(p)))])
  {
    hide *;
    var q, next := MessageStart(p), log + [MessageBegin(Seen(MessageStart(p)))];
    StartStep(p, 72, base);
    CapitalH();
    TakesOne(p, log, 72, base);
    EmitQuiet(log, MessageBegin(Seen(q)));
    WordStates();
    var one: seq<byte> := [72];
    var two := one + [word[0]];
    var three := two + [word[1]];
    var four := three + [word[2]];
    WordNext(p, log, one, base, q.(state := ResH), next, word[0]);
    WordNext(p, log, two, base, q.(state := ResHt), next, word[1]);
    WordNext(p, log, three, base, q.(state := ResHtt), next, word[2]);
    WordNext(p, log, four, base, q.(state := ResHttp), next, word[3]);
    assert [72] + word == four + [word[3]];
  }

  lemma MajorIs(p: Parser, value: nat)
    requires p.state == ResFirstMajor
    ensures Counted(p.(state := Within(p.state)), value) == p.(major := value, state := ResMajor)
  {
  }

  lemma MinorIs(p: Parser, value: nat)
    requires p.state == ResFirstMinor
    ensures Counted(p.(state := Within(p.state)), value) == p.(minor := value, state := ResMinor)
  {
  }

  /** A number and the byte behind it. */
  lemma PartTaken(p: Parser, log: seq<Event>, a: seq<byte>, base: nat, q: Parser, next: seq<Event>, d: seq<byte>,
                  value: nat, b: byte, r: Parser)
    requires Takes(p, log, a, base, q, next)
    requires (q.state == ResFirstMajor && b == 46) || (q.state == ResFirstMinor && b == 32)
    requires Number(d, Least(q.state), value)
    requires r == if q.state == ResFirstMajor then q.(major := value, state := ResFirstMinor)
                  else q.(minor := value, state := ResFirstStatus)
    ensures Takes(p, log, a + (d + [b]), base, r, next)
  {
    hide *;
    var m := if q.state == ResFirstMajor then q.(major := value, state := ResMajor)
             else q.(minor := value, state := ResMinor);
    if q.state == ResFirstMajor { MajorIs(q, value); } else { MinorIs(q, value); }
    NumberTaken(q, next, d, base + |a|, value);
    BehindSteps(m, base + |a| + |d|);
    ByteTaken(q, next, d, base + |a|, m, next, b, r);
    TakesBoth(p, log, a, base, q, next, d + [b], r, next);
  }

  /** The parser of a response behind the version. */
  function AtCode(p: Parser, major: nat, minor: nat): Parser {
    MessageStart(p).(major := major, minor := minor, state := ResFirstStatus)
  }

  lemma StatusParts(l: StatusLine, n: Numbers)
    requires StatusLineOk(l, n)
    ensures |l.word| == 4 && Number(l.major, '1', n.major) && Number(l.minor, '0', n.minor) && Number(l.code, '0', n.code)
    ensures (forall i :: 0 <= i < |l.pad| ==> l.pad[i] == 32) && Reason(l.reason) && LineEnd(l.end)
    ensures Least(ResFirstMajor) == '1' && Least(ResFirstMinor) == '0' && Least(ResFirstStatus) == '0'
    ensures VersionWire(l) == [72] + l.word + (l.major + [46]) + (l.minor + [32])
    ensures StatusWire(l) == VersionWire(l) + l.pad + l.code + l.reason + l.end
  {
    hide Number;
    hide Reason;
  }

  lemma VersionTaken(p: Parser, log: seq<Event>, l: StatusLine, n: Numbers, base: nat)
    requires p.state == StartRes && StatusLineOk(l, n)
    ensures Takes(p, log, VersionWire(l), base, AtCode(p, n.major, n.minor), log + [MessageBegin(Seen(MessageStart(p)))])
  {
    hide *;
    StatusParts(l, n);
    AtCodeIs(p, n.major, n.minor);
    var next := log + [MessageBegin(Seen(MessageStart(p)))];
    var a := MessageStart(p).(state := ResFirstMajor);
    var b := a.(major := n.major, state := ResFirstMinor);
    WordTaken(p, log, l.word, base);
    PartTaken(p, log, [72] + l.word, base, a, next, l.major, n.major, 46, b);
    PartTaken(p, log, [72] + l.word + (l.major + [46]), base, b, next, l.minor, n.minor, 32, AtCode(p, n.major, n.minor));
  }

  lemma AtCodeIs(p: Parser, major: nat, minor: nat)
    ensures AtCode(p, major, minor) == MessageStart(p).(major := major, minor := minor, state := ResFirstStatus)
  {
  }

  // ---- The code and the reason --------------------------------------------------------------------

  lemma PadStep(p: Parser, pos: nat)
    requires p.state == ResFirstStatus
    ensures StepByte(p, 32, pos) == Go(p)
  {
  }

  lemma {:induction false} PadTaken(p: Parser, log: seq<Event>, s: seq<byte>, base: nat)
    requires p.state == ResFirstStatus && forall i :: 0 <= i < |s| ==> s[i] == 32
    ensures Takes(p, log, s, base, p, log)
    decreases |s|
  {
    hide *;
    if s == [] {
      TakesNone(p, log, base);
    } else {
      PadStep(p, base);
      GoIs(p);
      TakesOne(p, log, 32, base);
      EmitNone(log);
      PadTaken(p, log, s[1..], base + 1);
      TakesBoth(p, log, [32], base, p, log, s[1..], p, log);
      assert s == [32] + s[1..];
    }
  }

  lemma ReasonSteps(p: Parser, b: byte, pos: nat)
    ensures p.state == ResStatusCode ==> StepByte(p, 32, pos) == Go(p.(state := ResStatus))
    ensures p.state == ResStatus && b != CR && b != LF ==> StepByte(p, b, pos) == Go(p)
  {
  }

  lemma {:induction false} ReasonRun(p: Parser, log: seq<Event>, s: seq<byte>, base: nat)
    requires p.state == ResStatus && forall i :: 0 <= i < |s| ==> s[i] != CR && s[i] != LF
    ensures Takes(p, log, s, base, p, log)
    decreases |s|
  {
    hide *;
    if s == [] {
      TakesNone(p, log, base);
    } else {
      ReasonSteps(p, s[0], base);
      GoIs(p);
      TakesOne(p, log, s[0], base);
      EmitNone(log);
      ReasonRun(p, log, s[1..], base + 1);
      TakesBoth(p, log, [s[0]], base, p, log, s[1..], p, log);
      assert s == [s[0]] + s[1..];
    }
  }

  lemma ReasonIs(t: seq<byte>)
    requires Reason(t)
    ensures t != [] ==> t[0] == 32 && t == [32] + t[1..]
    ensures t != [] ==> forall i :: 0 <= i < |t| - 1 ==> t[1..][i] != CR && t[1..][i] != LF
  {
  }

  lemma ReasonTaken(p: Parser, log: seq<Event>, t: seq<byte>, base: nat)
    requires p.state == ResStatusCode && Reason(t)
    ensures Takes(p, log, t, base, p.(state := if t == [] then ResStatusCode else ResStatus), log)
  {
    hide *;
    ReasonIs(t);
    if t == [] {
      TakesNone(p, log, base);
    } else {
      var q := p.(state := ResStatus);
      ReasonSteps(p, 32, base);
      GoIs(q);
      TakesOne(p, log, 32, base);
      EmitNone(log);
      ReasonRun(q, log, t[1..], base + 1);
      TakesBoth(p, log, [32], base, q, log, t[1..], q, log);
    }
  }

  lemma EndSteps(p: Parser, b: byte, pos: nat)
    requires p.state == ResStatusCode || p.state == ResStatus
    ensures StepByte(p, LF, pos) == LineDone(p, [])
    ensures StepByte(p, CR, pos) == Go(p.(state := ResLineAlmostDone))
    ensures StepByte(p.(state := ResLineAlmostDone), b, pos) == LineDone(p.(state := ResLineAlmostDone), [])
  {
    hide LineDone;
  }

  lemma LineDoneIs(p: Parser)
    ensures var q := p.(state := HeaderFieldStart); LineDone(p, []) == Step(q, [Line(Seen(q))], Reading)
  {
  }

  lemma EndTaken(p: Parser, log: seq<Event>, end: seq<byte>, base: nat)
    requires (p.state == ResStatusCode || p.state == ResStatus) && LineEnd(end)
    ensures var q := p.(state := HeaderFieldStart);
            Takes(p, log, end, base, q, log + [Line(Seen(q))])
  {
    hide *;
    LineEndIs(end);
    var q, r := p.(state := HeaderFieldStart), p.(state := ResLineAlmostDone);
    EmitQuiet(log, Line(Seen(q)));
    if end == [LF] {
      EndSteps(p, LF, base);
      LineDoneIs(p);
      TakesOne(p, log, LF, base);
    } else {
      EndSteps(p, end[1], base);
      EndSteps(p, end[1], base + 1);
      GoIs(r);
      TakesOne(p, log, CR, base);
      EmitNone(log);
      LineDoneIs(r);
      TakesOne(r, log, end[1], base + 1);
      TakesBoth(p, log, [CR], base, r, log, [end[1]], q, log + [Line(Seen(q))]);
    }
  }

  /** The parser of a response behind its status line. */
  function AfterStatus(p: Parser, n: Numbers): Parser {
    MessageStart(p).(major := n.major, minor := n.minor, statusCode := n.code, state := HeaderFieldStart)
  }

  lemma CodeIs(p: Parser, n: Numbers)
    ensures Counted(AtCode(p, n.major, n.minor).(state := Within(ResFirstStatus)), n.code) ==
            AfterStatus(p, n).(state := ResStatusCode)
  {
  }

  /** A status line makes two calls, and leaves the version and the status code. */
  lemma StatusLineTaken(p: Parser, log: seq<Event>, l: StatusLine, n: Numbers, base: nat)
    requires p.state == StartRes && StatusLineOk(l, n)
    ensures var q := AfterStatus(p, n);
            Takes(p, log, StatusWire(l), base, q, log + [MessageBegin(Seen(MessageStart(p)))] + [Line(Seen(q))])
  {
    hide *;
    StatusParts(l, n);
    CodeIs(p, n);
    AtCodeIs(p, n.major, n.minor);
    AfterStatusIs(p, n);
    var next, q := log + [MessageBegin(Seen(MessageStart(p)))], AfterStatus(p, n);
    var a, c := AtCode(p, n.major, n.minor), q.(state := ResStatusCode);
    var d := c.(state := if l.reason == [] then ResStatusCode else ResStatus);
    var one, two := VersionWire(l) + l.pad, VersionWire(l) + l.pad + l.code;
    VersionTaken(p, log, l, n, base);
    PadTaken(a, next, l.pad, base + |VersionWire(l)|);
    TakesBoth(p, log, VersionWire(l), base, a, next, l.pad, a, next);
    NumberTaken(a, next, l.code, base + |one|, n.code);
    TakesBoth(p, log, one, base, a, next, l.code, c, next);
    ReasonTaken(c, next, l.reason, base + |two|);
    TakesBoth(p, log, two, base, c, next, l.reason, d, next);
    EndTaken(d, next, l.end, base + |two + l.reason|);
    TakesBoth(p, log, two + l.reason, base, d, next, l.end, q, next + [Line(Seen(q))]);
  }

  lemma AfterStatusIs(p: Parser, n: Numbers)
    ensures AfterStatus(p, n) ==
            MessageStart(p).(major := n.major, minor := n.minor, statusCode := n.code, state := HeaderFieldStart)
  {
  }

  // ---- Behind the headers -------------------------------------------------------------------------

  /** The parser of a response at the empty line behind its headers, which announce no chunks. */
  predicate PlainResponse(p: Parser) {
    && p.state == HeadersAlmostDone && p.kind == Response && !HttpRequest.Leaving(p) && !p.flags.trailing
    && !p.flags.chunked && p.contentLength >= -1
  }

  /** A response is over with its headers exactly if it announces an empty body, or nothing while the connection persists. */
  lemma OverWithHeaders(p: Parser, b: byte, pos: nat)
    requires PlainResponse(p)
    ensures var s, seen := StepByte(p, b, pos), HttpRequest.SeenLeaving(p);
            && (s.status == Complete <==> p.contentLength == 0 || (p.contentLength == -1 && ShouldKeepAlive(p)))
            && (s.status == Complete ==>
                  s.p.state == StartRes && s.events == [HeadersComplete(seen)] + [MessageComplete(seen)])
  {
    hide Seen;
  }

  /** The parser within a body that ends with the connection. */
  function InRest(p: Parser): Parser {
    p.(state := BodyIdentityEof, savedLength := 0)
  }

  lemma RestStep(p: Parser, pos: nat)
    requires PlainResponse(p) && p.contentLength == -1 && !ShouldKeepAlive(p)
    ensures StepByte(p, LF, pos) == Step(InRest(p), [HeadersComplete(Seen(InRest(p)))], Reading)
  {
  }

  lemma RestIs(p: Parser)
    requires PlainResponse(p)
    ensures InRest(p).state == BodyIdentityEof && InRest(p).kind == Response && StartState(Response) == StartRes
  {
  }

  lemma EndOfRest(c: Call)
    requires c.status == Reading && c.p.state == BodyIdentityEof
    ensures EndOfCall(c) ==
            Call(c.p.(state := StartState(c.p.kind)), Emit(c.log, MessageComplete(Seen(c.p))), c.consumed, Complete)
  {
  }

  /**
   * A response of a connection that does not persist, with no length announced: all that comes behind the headers is
   * its body, in one piece, and it is complete at the end of the call.
   */
  lemma UntilClosed(p: Parser, log: seq<Event>, body: seq<byte>, base: nat)
    requires PlainResponse(p) && p.contentLength == -1 && !ShouldKeepAlive(p)
    ensures var c, seen := EndOfCall(Process(p, log, [LF] + body, base)), Seen(InRest(p));
            && c.status == Complete && c.consumed == 1 + |body| && c.p.state == StartRes
            && c.log == log + [HeadersComplete(seen)]
                        + (if body == [] then [] else [Body(base + 1, base + 1 + |body|)]) + [MessageComplete(seen)]
  {
    hide *;
    var q := InRest(p);
    var headers, last := HeadersComplete(Seen(q)), MessageComplete(Seen(q));
    var next := log + [headers];
    RestStep(p, base);
    RestIs(p);
    TakesOne(p, log, LF, base);
    EmitQuiet(log, headers);
    TakenFirst(p, log, [LF], base, q, next, body);
    var c := Process(q, next, body, base + 1);
    LaterIs(1, c);
    if body == [] {
      ProcessNone(q, next, base + 1);
    } else {
      BulkEof(q, next, body, base + 1);
      EmitQuiet(next, last);
      PieceEmitted(next, headers, log, base + 1, base + 1 + |body|);
    }
    EndOfRest(Later(1, c));
    QuietEmitted(c.log, last);
  }

  lemma PieceEmitted(next: seq<Event>, headers: Event, log: seq<Event>, from: nat, to: nat)
    requires next == log + [headers] && !headers.Body?
    ensures Emit(next, Body(from, to)) == log + [headers] + [Body(from, to)]
  {
  }

  lemma QuietEmitted(log: seq<Event>, e: Event)
    requires !e.Body?
    ensures Emit(log, e) == log + [e]
  {
  }
}
