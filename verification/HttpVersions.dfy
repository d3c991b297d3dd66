/**
 * The version at the end of a request line (section 2.3 of RFC 9112) through the HTTP/1.1 parser. What is
 * accepted is exactly what has the form, with the numbers that its digits come to.
 */
module HttpVersions {
  import opened Common
  import opened HttpTypes
  import opened HttpStep
  import opened HttpRun
  import opened HttpTargets

  // ---- The form -----------------------------------------------------------------------------------

  /** The number of digits behind a value v. */
  function Decimal(v: nat, d: seq<byte>): (r: nat)
    requires AllNum(d)
    ensures v <= r
    decreases |d|
  {
    if d == [] then v else Decimal(v * 10 + (d[0] - 48), d[1..])
  }

  /** Digits that take v to a value of at most three digits. */
  predicate Reaches(v: nat, d: seq<byte>, value: nat) {
    AllNum(d) && Decimal(v, d) == value <= 999
  }

  /** The end of a line, but for its line feed. */
  predicate LineTail(t: seq<byte>) {
    t == [] || t == [13]
  }

  predicate MinorMore(v: nat, t: seq<byte>, minor: nat) {
    exists k :: 0 <= k <= |t| && Reaches(v, t[..k], minor) && LineTail(t[k..])
  }

  /** Digits, and nothing or a carriage return behind them. */
  predicate MinorForm(t: seq<byte>, minor: nat) {
    t != [] && IsNum(t[0]) && MinorMore(t[0] - 48, t[1..], minor)
  }

  predicate MajorMore(v: nat, t: seq<byte>, major: nat, minor: nat) {
    exists k :: 0 <= k < |t| && Reaches(v, t[..k], major) && t[k] == Ch('.') && MinorForm(t[k + 1..], minor)
  }

  /** Digits of which the first is not zero, a point, and the minor number. */
  predicate MajorForm(t: seq<byte>, major: nat, minor: nat) {
    t != [] && Ch('1') <= t[0] <= Ch('9') && MajorMore(t[0] - 48, t[1..], major, minor)
  }

  /** An H, the place of the letters TTP and a slash, at which the source takes any four bytes, and the numbers. */
  predicate VersionForm(t: seq<byte>, major: nat, minor: nat) {
    |t| >= 5 && t[0] == Ch('H') && MajorForm(t[5..], major, minor)
  }

  // ---- The form, one byte at a time -----------------------------------------------------------------

  lemma ReachesNone(v: nat, value: nat)
    ensures Reaches(v, [], value) <==> v == value <= 999
  {
  }

  lemma ReachesNext(v: nat, b: byte, d: seq<byte>, value: nat)
    ensures Reaches(v, [b] + d, value) <==>
            IsNum(b) && v * 10 + (b - 48) <= 999 && Reaches(v * 10 + (b - 48), d, value)
  {
    hide IsNum;
    var bd := [b] + d;
    assert bd[0] == b && bd[1..] == d;
    if AllNum(bd) { assert forall i :: 0 <= i < |d| ==> d[i] == bd[i + 1]; }
    DigitLow(b);
    if IsNum(b) && AllNum(d) { assert forall i :: 0 < i < |bd| ==> bd[i] == d[i - 1]; }
  }

  lemma DigitLow(b: byte)
    ensures IsNum(b) ==> 0 <= b - 48 <= 9
    ensures !IsNum(46) && !IsNum(13)
  {
  }

  lemma MinorNone(v: nat, minor: nat)
    ensures MinorMore(v, [], minor) <==> v == minor <= 999
  {
    hide Reaches;
    ReachesNone(v, minor);
    var t: seq<byte> := [];
    if v == minor <= 999 { assert Reaches(v, t[..0], minor) && LineTail(t[0..]); }
    if MinorMore(v, t, minor) {
      var k :| 0 <= k <= |t| && Reaches(v, t[..k], minor) && LineTail(t[k..]);
      assert t[..k] == [];
    }
  }

  lemma MinorFrom(v: nat, b: byte, t: seq<byte>, minor: nat)
    requires MinorMore(v, [b] + t, minor)
    ensures if IsNum(b) then v * 10 + (b - 48) <= 999 && MinorMore(v * 10 + (b - 48), t, minor)
            else b == CR && t == [] && v == minor <= 999
  {
    hide Reaches;
    hide IsNum;
    DigitLow(b);
    var bt := [b] + t;
    var k :| 0 <= k <= |bt| && Reaches(v, bt[..k], minor) && LineTail(bt[k..]);
    if k == 0 {
      DropFirst(b, t, 0);
      ReachesNone(v, minor);
      assert bt == [13] && bt[0] == b;
    } else {
      DropFirst(b, t, k - 1);
      ReachesNext(v, b, t[..k - 1], minor);
      assert Reaches(v * 10 + (b - 48), t[..k - 1], minor) && LineTail(t[k - 1..]);
    }
  }

  lemma MinorTo(v: nat, b: byte, t: seq<byte>, minor: nat)
    requires if IsNum(b) then v * 10 + (b - 48) <= 999 && MinorMore(v * 10 + (b - 48), t, minor)
             else b == CR && t == [] && v == minor <= 999
    ensures MinorMore(v, [b] + t, minor)
  {
    hide Reaches;
    hide IsNum;
    DigitLow(b);
    var bt := [b] + t;
    if IsNum(b) {
      var k :| 0 <= k <= |t| && Reaches(v * 10 + (b - 48), t[..k], minor) && LineTail(t[k..]);
      ReachesNext(v, b, t[..k], minor);
      DropFirst(b, t, k);
      assert Reaches(v, bt[..k + 1], minor) && LineTail(bt[k + 1..]);
    } else {
      ReachesNone(v, minor);
      DropFirst(b, t, 0);
      assert Reaches(v, bt[..0], minor) && LineTail(bt[0..]);
    }
  }

  lemma MinorNext(v: nat, b: byte, t: seq<byte>, minor: nat)
    ensures MinorMore(v, [b] + t, minor) <==>
            if IsNum(b) then v * 10 + (b - 48) <= 999 && MinorMore(v * 10 + (b - 48), t, minor)
            else b == CR && t == [] && v == minor <= 999
  {
    hide MinorMore;
    hide IsNum;
    DigitLow(b);
    if MinorMore(v, [b] + t, minor) {
      MinorFrom(v, b, t, minor);
    } else if (if IsNum(b) then v * 10 + (b - 48) <= 999 && MinorMore(v * 10 + (b - 48), t, minor)
               else b == CR && t == [] && v == minor <= 999) {
      MinorTo(v, b, t, minor);
    }
  }

  lemma MajorFrom(v: nat, b: byte, t: seq<byte>, major: nat, minor: nat)
    requires MajorMore(v, [b] + t, major, minor)
    ensures if IsNum(b) then v * 10 + (b - 48) <= 999 && MajorMore(v * 10 + (b - 48), t, major, minor)
            else b == Ch('.') && v == major <= 999 && MinorForm(t, minor)
  {
    hide Reaches;
    hide IsNum;
    hide MinorForm;
    DigitLow(b);
    var bt := [b] + t;
    var k :| 0 <= k < |bt| && Reaches(v, bt[..k], major) && bt[k] == Ch('.') && MinorForm(bt[k + 1..], minor);
    if k == 0 {
      DropFirst(b, t, 0);
      assert t[0..] == t;
      ReachesNone(v, major);
    } else {
      DropFirst(b, t, k - 1);
      DropFirst(b, t, k);
      ReachesNext(v, b, t[..k - 1], major);
      assert Reaches(v * 10 + (b - 48), t[..k - 1], major) && t[k - 1] == Ch('.') && MinorForm(t[k..], minor);
    }
  }

  lemma MajorTo(v: nat, b: byte, t: seq<byte>, major: nat, minor: nat)
    requires if IsNum(b) then v * 10 + (b - 48) <= 999 && MajorMore(v * 10 + (b - 48), t, major, minor)
             else b == Ch('.') && v == major <= 999 && MinorForm(t, minor)
    ensures MajorMore(v, [b] + t, major, minor)
  {
    hide Reaches;
    hide IsNum;
    hide MinorForm;
    DigitLow(b);
    var bt := [b] + t;
    if IsNum(b) {
      var k :|
        0 <= k < |t| && Reaches(v * 10 + (b - 48), t[..k], major) && t[k] == Ch('.') && MinorForm(t[k + 1..], minor);
      ReachesNext(v, b, t[..k], major);
      DropFirst(b, t, k);
      DropFirst(b, t, k + 1);
      assert Reaches(v, bt[..k + 1], major) && bt[k + 1] == Ch('.') && MinorForm(bt[k + 2..], minor);
    } else {
      ReachesNone(v, major);
      DropFirst(b, t, 0);
      assert t[0..] == t;
      assert Reaches(v, bt[..0], major) && bt[0] == Ch('.') && MinorForm(bt[1..], minor);
    }
  }

  lemma MajorNext(v: nat, b: byte, t: seq<byte>, major: nat, minor: nat)
    ensures !MajorMore(v, [], major, minor)
    ensures MajorMore(v, [b] + t, major, minor) <==>
            if IsNum(b) then v * 10 + (b - 48) <= 999 && MajorMore(v * 10 + (b - 48), t, major, minor)
            else b == Ch('.') && v == major <= 999 && MinorForm(t, minor)
  {
    MajorNone(v, major, minor);
    hide MajorMore;
    hide MinorForm;
    hide IsNum;
    DigitLow(b);
    if MajorMore(v, [b] + t, major, minor) {
      MajorFrom(v, b, t, major, minor);
    } else if (if IsNum(b) then v * 10 + (b - 48) <= 999 && MajorMore(v * 10 + (b - 48), t, major, minor)
               else b == Ch('.') && v == major <= 999 && MinorForm(t, minor)) {
      MajorTo(v, b, t, major, minor);
    }
  }

  lemma MajorNone(v: nat, major: nat, minor: nat)
    ensures !MajorMore(v, [], major, minor)
  {
  }

  lemma MinorFirst(b: byte, t: seq<byte>, minor: nat)
    ensures MinorForm([b] + t, minor) <==> IsNum(b) && MinorMore(b - 48, t, minor)
  {
    hide MinorMore;
    assert ([b] + t)[1..] == t;
  }

  lemma MajorFirst(b: byte, t: seq<byte>, major: nat, minor: nat)
    ensures MajorForm([b] + t, major, minor) <==> Ch('1') <= b <= Ch('9') && MajorMore(b - 48, t, major, minor)
  {
    hide MajorMore;
    assert ([b] + t)[1..] == t;
  }

  // ---- What is left to come of a version ------------------------------------------------------------

  predicate InVersion(s: State) {
    || s == ReqHttpH || s == ReqHttpHt || s == ReqHttpHtt || s == ReqHttpHttp
    || s == ReqFirstMajor || s == ReqMajor || s == ReqFirstMinor || s == ReqMinor || s == ReqLineAlmostDone
  }

  /** Bytes behind which the parser has read a version of these numbers, in front of the line feed. */
  predicate Rest(p: Parser, t: seq<byte>, major: nat, minor: nat) {
    match p.state
    case ReqHttpH => |t| >= 4 && MajorForm(t[4..], major, minor)
    case ReqHttpHt => |t| >= 3 && MajorForm(t[3..], major, minor)
    case ReqHttpHtt => |t| >= 2 && MajorForm(t[2..], major, minor)
    case ReqHttpHttp => |t| >= 1 && MajorForm(t[1..], major, minor)
    case ReqFirstMajor => MajorForm(t, major, minor)
    case ReqMajor => MajorMore(p.major, t, major, minor)
    case ReqFirstMinor => p.major == major <= 999 && MinorForm(t, minor)
    case ReqMinor => p.major == major <= 999 && MinorMore(p.minor, t, minor)
    case _ => p.major == major <= 999 && p.minor == minor <= 999 && t == []
  }

  /** A byte leads on without a call, or the parse fails and no version has this byte there. */
  predicate Leads(p: Parser, s: Step, b: byte, t: seq<byte>, major: nat, minor: nat) {
    || (s == Go(p.(state := s.p.state, major := s.p.major, minor := s.p.minor)) && InVersion(s.p.state)
        && (Rest(p, [b] + t, major, minor) <==> Rest(s.p, t, major, minor)))
    || (s.status == Failed && !Rest(p, [b] + t, major, minor))
  }

  /** The numbers that are being read have not left their bounds. */
  predicate Small(p: Parser) {
    && (p.state == ReqMajor || p.state == ReqFirstMinor ==> p.major <= 999)
    && (p.state == ReqMinor || p.state == ReqLineAlmostDone ==> p.major <= 999)
    && (p.state == ReqMinor || p.state == ReqLineAlmostDone ==> p.minor <= 999)
  }

  /** The state behind a letter, whatever the letter is. */
  function AfterLetter(s: State): State {
    match s
    case ReqHttpH => ReqHttpHt
    case ReqHttpHt => ReqHttpHtt
    case ReqHttpHtt => ReqHttpHttp
    case _ => ReqFirstMajor
  }

  predicate InLetters(s: State) {
    s == ReqHttpH || s == ReqHttpHt || s == ReqHttpHtt || s == ReqHttpHttp
  }

  lemma LetterTaken(p: Parser, b: byte, pos: nat)
    requires InLetters(p.state)
    ensures StepByte(p, b, pos) == Go(p.(state := AfterLetter(p.state)))
  {
  }

  lemma LetterRest(p: Parser, b: byte, t: seq<byte>, major: nat, minor: nat)
    requires InLetters(p.state)
    ensures Rest(p, [b] + t, major, minor) <==> Rest(p.(state := AfterLetter(p.state)), t, major, minor)
  {
    hide MajorForm;
    if |t| >= 3 { assert ([b] + t)[4..] == t[3..]; }
    if |t| >= 2 { assert ([b] + t)[3..] == t[2..]; }
    if |t| >= 1 { assert ([b] + t)[2..] == t[1..]; }
    assert ([b] + t)[1..] == t;
  }

  lemma LetterStep(p: Parser, b: byte, t: seq<byte>, pos: nat, major: nat, minor: nat)
    requires InLetters(p.state)
    ensures Leads(p, StepByte(p, b, pos), b, t, major, minor) && Small(StepByte(p, b, pos).p)
  {
    hide StepByte;
    hide Rest;
    LetterTaken(p, b, pos);
    LetterRest(p, b, t, major, minor);
  }

  lemma FirstDigitStep(p: Parser, b: byte, pos: nat)
    ensures p.state == ReqFirstMajor ==>
              StepByte(p, b, pos) ==
              if Ch('1') <= b <= Ch('9') then Go(p.(major := b - 48, state := ReqMajor)) else Fail(p)
    ensures p.state == ReqFirstMinor ==>
              StepByte(p, b, pos) == if IsNum(b) then Go(p.(minor := b - 48, state := ReqMinor)) else Fail(p)
  {
  }

  lemma MajorDigitStep(p: Parser, b: byte, pos: nat)
    requires p.state == ReqMajor
    ensures if IsNum(b) && p.major * 10 + (b - 48) <= 999
            then StepByte(p, b, pos) == Go(p.(major := p.major * 10 + (b - 48)))
            else if b == Ch('.') then StepByte(p, b, pos) == Go(p.(state := ReqFirstMinor))
            else StepByte(p, b, pos).status == Failed
  {
  }

  lemma MinorDigitStep(p: Parser, b: byte, pos: nat)
    requires p.state == ReqMinor && b != LF
    ensures if IsNum(b) && p.minor * 10 + (b - 48) <= 999
            then StepByte(p, b, pos) == Go(p.(minor := p.minor * 10 + (b - 48)))
            else if b == CR then StepByte(p, b, pos) == Go(p.(state := ReqLineAlmostDone))
            else StepByte(p, b, pos).status == Failed
  {
  }

  lemma RestIs(p: Parser, t: seq<byte>, major: nat, minor: nat)
    ensures p.state == ReqFirstMajor ==> Rest(p, t, major, minor) == MajorForm(t, major, minor)
    ensures p.state == ReqMajor ==> Rest(p, t, major, minor) == MajorMore(p.major, t, major, minor)
    ensures p.state == ReqFirstMinor ==> Rest(p, t, major, minor) == (p.major == major <= 999 && MinorForm(t, minor))
    ensures p.state == ReqMinor ==> Rest(p, t, major, minor) == (p.major == major <= 999 && MinorMore(p.minor, t, minor))
    ensures p.state == ReqLineAlmostDone ==>
              Rest(p, t, major, minor) == (p.major == major <= 999 && p.minor == minor <= 999 && t == [])
  {
    hide MajorForm;
    hide MajorMore;
    hide MinorForm;
    hide MinorMore;
  }

  /** A byte that leads on, to a state within the bounds. */
  lemma LeadsOn(p: Parser, q: Parser, b: byte, t: seq<byte>, major: nat, minor: nat)
    requires q == p.(state := q.state, major := q.major, minor := q.minor) && InVersion(q.state)
    requires Rest(p, [b] + t, major, minor) <==> Rest(q, t, major, minor)
    ensures Leads(p, Go(q), b, t, major, minor) && Go(q).p == q
  {
    hide Rest;
  }

  lemma LeadsNowhere(p: Parser, s: Step, b: byte, t: seq<byte>, major: nat, minor: nat)
    requires s.status == Failed && !Rest(p, [b] + t, major, minor)
    ensures Leads(p, s, b, t, major, minor)
  {
    hide Rest;
  }

  lemma WithinStates(p: Parser)
    ensures InVersion(ReqMajor) && InVersion(ReqFirstMinor) && InVersion(ReqMinor) && InVersion(ReqLineAlmostDone)
    ensures p.state == ReqMajor || p.state == ReqFirstMinor ==> (Small(p) <==> p.major <= 999)
    ensures p.state == ReqMinor || p.state == ReqLineAlmostDone ==> (Small(p) <==> p.major <= 999 && p.minor <= 999)
    ensures Fail(p).status == Failed
  {
  }

  lemma FirstMajorStep(p: Parser, b: byte, t: seq<byte>, pos: nat, major: nat, minor: nat)
    requires p.state == ReqFirstMajor
    ensures Leads(p, StepByte(p, b, pos), b, t, major, minor)
    ensures StepByte(p, b, pos).status == Reading ==> Small(StepByte(p, b, pos).p)
  {
    hide *;
    FirstDigitStep(p, b, pos);
    MajorFirst(b, t, major, minor);
    RestIs(p, [b] + t, major, minor);
    WithinStates(p);
    if Ch('1') <= b <= Ch('9') {
      DigitLow(b);
      FirstDigitLow(b);
      var q := p.(major := b - 48, state := ReqMajor);
      RestIs(q, t, major, minor);
      WithinStates(q);
      LeadsOn(p, q, b, t, major, minor);
    } else {
      LeadsNowhere(p, Fail(p), b, t, major, minor);
    }
  }

  lemma FirstDigitLow(b: byte)
    ensures Ch('1') <= b <= Ch('9') ==> 1 <= b - 48 <= 9
  {
  }

  lemma FirstMinorStep(p: Parser, b: byte, t: seq<byte>, pos: nat, major: nat, minor: nat)
    requires p.state == ReqFirstMinor && Small(p)
    ensures Leads(p, StepByte(p, b, pos), b, t, major, minor)
    ensures StepByte(p, b, pos).status == Reading ==> Small(StepByte(p, b, pos).p)
  {
    hide *;
    FirstDigitStep(p, b, pos);
    MinorFirst(b, t, minor);
    RestIs(p, [b] + t, major, minor);
    WithinStates(p);
    DigitLow(b);
    if IsNum(b) {
      var q := p.(minor := b - 48, state := ReqMinor);
      RestIs(q, t, major, minor);
      WithinStates(q);
      LeadsOn(p, q, b, t, major, minor);
    } else {
      LeadsNowhere(p, Fail(p), b, t, major, minor);
    }
  }

  lemma MajorStep(p: Parser, b: byte, t: seq<byte>, pos: nat, major: nat, minor: nat)
    requires p.state == ReqMajor && Small(p)
    ensures Leads(p, StepByte(p, b, pos), b, t, major, minor)
    ensures StepByte(p, b, pos).status == Reading ==> Small(StepByte(p, b, pos).p)
  {
    hide *;
    MajorDigitStep(p, b, pos);
    MajorNext(p.major, b, t, major, minor);
    RestIs(p, [b] + t, major, minor);
    WithinStates(p);
    DigitLow(b);
    DigitLow(46);
    PointIs();
    if IsNum(b) && p.major * 10 + (b - 48) <= 999 {
      var q := p.(major := p.major * 10 + (b - 48));
      RestIs(q, t, major, minor);
      WithinStates(q);
      LeadsOn(p, q, b, t, major, minor);
    } else if b == Ch('.') {
      var q := p.(state := ReqFirstMinor);
      RestIs(q, t, major, minor);
      WithinStates(q);
      LeadsOn(p, q, b, t, major, minor);
    } else {
      LeadsNowhere(p, StepByte(p, b, pos), b, t, major, minor);
    }
  }

  lemma PointIs()
    ensures Ch('.') == 46
  {
  }

  lemma MinorStep(p: Parser, b: byte, t: seq<byte>, pos: nat, major: nat, minor: nat)
    requires p.state == ReqMinor && Small(p) && b != LF
    ensures Leads(p, StepByte(p, b, pos), b, t, major, minor)
    ensures StepByte(p, b, pos).status == Reading ==> Small(StepByte(p, b, pos).p)
  {
    hide *;
    MinorDigitStep(p, b, pos);
    MinorNext(p.minor, b, t, minor);
    RestIs(p, [b] + t, major, minor);
    WithinStates(p);
    DigitLow(b);
    if IsNum(b) && p.minor * 10 + (b - 48) <= 999 {
      var q := p.(minor := p.minor * 10 + (b - 48));
      RestIs(q, t, major, minor);
      WithinStates(q);
      LeadsOn(p, q, b, t, major, minor);
    } else if b == CR {
      var q := p.(state := ReqLineAlmostDone);
      ReturnIs();
      RestIs(q, t, major, minor);
      WithinStates(q);
      LeadsOn(p, q, b, t, major, minor);
    } else {
      LeadsNowhere(p, StepByte(p, b, pos), b, t, major, minor);
    }
  }

  lemma ReturnIs()
    ensures !IsNum(CR)
  {
  }

  lemma LastStep(p: Parser, b: byte, t: seq<byte>, pos: nat, major: nat, minor: nat)
    requires p.state == ReqLineAlmostDone && b != LF
    ensures Leads(p, StepByte(p, b, pos), b, t, major, minor) && StepByte(p, b, pos).status == Failed
  {
  }

  lemma VersionStep(p: Parser, b: byte, t: seq<byte>, pos: nat, major: nat, minor: nat)
    requires InVersion(p.state) && Small(p) && (b != LF || (p.state != ReqMinor && p.state != ReqLineAlmostDone))
    ensures var s := StepByte(p, b, pos);
            && Leads(p, s, b, t, major, minor) && (s.status == Reading ==> Small(s.p))
  {
    hide StepByte;
    hide Leads;
    hide Small;
    if p.state == ReqFirstMajor {
      FirstMajorStep(p, b, t, pos, major, minor);
    } else if p.state == ReqFirstMinor {
      FirstMinorStep(p, b, t, pos, major, minor);
    } else if p.state == ReqMajor {
      MajorStep(p, b, t, pos, major, minor);
    } else if p.state == ReqMinor {
      MinorStep(p, b, t, pos, major, minor);
    } else if p.state == ReqLineAlmostDone {
      LastStep(p, b, t, pos, major, minor);
    } else {
      LetterStep(p, b, t, pos, major, minor);
    }
  }

  // ---- Whole versions -------------------------------------------------------------------------------

  lemma LeadsEither(p: Parser, s: Step, b: byte, t: seq<byte>, major: nat, minor: nat)
    requires Leads(p, s, b, t, major, minor)
    ensures || (s == Go(s.p) && s.status == Reading && InVersion(s.p.state)
                && s.p == p.(state := s.p.state, major := s.p.major, minor := s.p.minor)
                && (Rest(p, [b] + t, major, minor) <==> Rest(s.p, t, major, minor)))
            || (s.status == Failed && !Rest(p, [b] + t, major, minor))
  {
  }

  /** The parser behind a request line with a version. */
  function Versioned(p: Parser, major: nat, minor: nat): Parser {
    p.(major := major, minor := minor, state := HeaderFieldStart)
  }

  lemma LineFeedStep(p: Parser, pos: nat)
    requires InVersion(p.state) && Small(p)
    ensures var s := StepByte(p, LF, pos);
            if p.state == ReqMinor || p.state == ReqLineAlmostDone then s == LineDone(p, [])
            else s.status == Failed || (s.events == [] && s.p.state != HeaderFieldStart)
  {
  }

  lemma LineFeedRest(p: Parser, major: nat, minor: nat)
    requires InVersion(p.state) && Small(p)
    ensures Rest(p, [], major, minor) <==>
            (p.state == ReqMinor || p.state == ReqLineAlmostDone) && p.major == major && p.minor == minor
  {
    hide MinorMore;
    MinorNone(p.minor, minor);
    MajorNext(p.major, 0, [], major, minor);
  }

  lemma LastByte(p: Parser, log: seq<Event>, base: nat, major: nat, minor: nat)
    requires InVersion(p.state) && Small(p)
    ensures var q := Versioned(p, major, minor);
            Rest(p, [], major, minor) <==> Takes(p, log, [LF], base, q, log + [Line(Seen(q))])
  {
    hide StepByte;
    hide Seen;
    hide Rest;
    hide Small;
    var s := StepByte(p, LF, base);
    LineFeedStep(p, base);
    LineFeedRest(p, major, minor);
    SeenAnywhere(p, p.(state := HeaderFieldStart));
    assert [] + [Line(Seen(p))] == [Line(Seen(p))];
    EmitQuiet(log, Line(Seen(p)));
    EmitNone(log);
    ProcessStep(p, log, [LF], base);
    assert [LF][1..] == [];
    ProcessNone(s.p, EmitAll(log, s.events), base + 1);
  }

  /** The rest of a version, and the line feed. */
  lemma {:induction false} RestTaken(p: Parser, log: seq<Event>, t: seq<byte>, base: nat, major: nat, minor: nat)
    requires InVersion(p.state) && Small(p)
    ensures var q := Versioned(p, major, minor);
            && (Rest(p, t, major, minor) ==> Takes(p, log, t + [LF], base, q, log + [Line(Seen(q))]))
            && (LF !in t && Takes(p, log, t + [LF], base, q, log + [Line(Seen(q))]) ==> Rest(p, t, major, minor))
    decreases |t|
  {
    hide *;
    var q := Versioned(p, major, minor);
    if t == [] {
      assert t + [LF] == [LF];
      LastByte(p, log, base, major, minor);
    } else {
      var b, s := t[0], StepByte(p, t[0], base);
      assert t == [b] + t[1..] && t + [LF] == [b] + (t[1..] + [LF]) && (t + [LF])[0] == b;
      if b == LF && (p.state == ReqMinor || p.state == ReqLineAlmostDone) {
        NoLineFeed(p, t, major, minor);
      } else {
        VersionStep(p, b, t[1..], base, major, minor);
        LeadsEither(p, s, b, t[1..], major, minor);
        if s.status == Failed && !Rest(p, t, major, minor) {
          FailsFirst(p, log, t + [LF], base);
        } else {
          RestTaken(s.p, log, t[1..], base + 1, major, minor);
          VersionedSame(p, s.p, major, minor);
          StepTaken(p, log, b, t[1..] + [LF], base, s.p);
          TakesSame(p, s.p, log, t + [LF], t[1..] + [LF], base, q, log + [Line(Seen(q))]);
        }
      }
    }
  }

  lemma VersionedSame(p: Parser, q: Parser, major: nat, minor: nat)
    requires q == p.(state := q.state, major := q.major, minor := q.minor)
    ensures Versioned(q, major, minor) == Versioned(p, major, minor)
  {
  }

  lemma NoLineFeed(p: Parser, t: seq<byte>, major: nat, minor: nat)
    requires (p.state == ReqMinor || p.state == ReqLineAlmostDone) && t != [] && t[0] == LF
    ensures !Rest(p, t, major, minor)
  {
    hide MinorMore;
    assert t == [LF] + t[1..];
    MinorNext(p.minor, LF, t[1..], minor);
  }

  lemma FirstStep(p: Parser, b: byte, pos: nat)
    requires p.state == ReqHttpStart && b != 32
    ensures StepByte(p, b, pos) == if b == Ch('H') then Go(p.(state := ReqHttpH)) else Fail(p)
  {
  }

  lemma FirstRest(p: Parser, t: seq<byte>, major: nat, minor: nat)
    requires p.state == ReqHttpH && t != []
    ensures VersionForm(t, major, minor) <==> t[0] == Ch('H') && Rest(p, t[1..], major, minor)
    ensures InVersion(p.state) && Small(p)
  {
    hide MajorForm;
    if |t| >= 5 { assert t[1..][4..] == t[5..]; }
  }

  /**
   * A version and the line feed behind it end the request line, and leave the two numbers, exactly if it has the
   * form. A line with a version of another form is not taken.
   */
  lemma VersionExact(p: Parser, log: seq<Event>, t: seq<byte>, base: nat, major: nat, minor: nat)
    requires p.state == ReqHttpStart && t != [] && t[0] != 32
    ensures var q := Versioned(p, major, minor);
            && (VersionForm(t, major, minor) ==> Takes(p, log, t + [LF], base, q, log + [Line(Seen(q))]))
            && (LF !in t && Takes(p, log, t + [LF], base, q, log + [Line(Seen(q))]) ==> VersionForm(t, major, minor))
  {
    hide *;
    var q, r := Versioned(p, major, minor), p.(state := ReqHttpH);
    assert t == [t[0]] + t[1..] && t + [LF] == [t[0]] + (t[1..] + [LF]) && (t + [LF])[0] == t[0];
    FirstStep(p, t[0], base);
    FirstRest(r, t, major, minor);
    if t[0] == Ch('H') {
      RestTaken(r, log, t[1..], base + 1, major, minor);
      VersionedSame(p, r, major, minor);
      StepTaken(p, log, t[0], t[1..] + [LF], base, r);
      TakesSame(p, r, log, t + [LF], t[1..] + [LF], base, q, log + [Line(Seen(q))]);
    } else {
      FailIs(p);
      FailsFirst(p, log, t + [LF], base);
    }
  }

  lemma FailIs(p: Parser)
    ensures Fail(p).status == Failed
  {
  }
}
