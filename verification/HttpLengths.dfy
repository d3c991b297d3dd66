/**
 * Bodies of announced length (section 6.2 of RFC 9112): the digits of a Content-Length field are read
 * as a number, and as many bytes behind the headers are the body.
 */
module HttpLengths {
  import opened Common
  import opened HttpTypes
  import opened HttpStep
  import opened HttpRun

  /** Decimal digits, and spaces among and behind them, which the source skips. */
  predicate Digits(d: seq<byte>) {
    forall i :: 0 <= i < |d| ==> IsNum(d[i]) || d[i] == 32
  }

  /** The value of decimal digits behind a value v. */
  function DecimalFrom(v: nat, d: seq<byte>): (r: nat)
    requires Digits(d)
    ensures v <= r
    decreases |d|
  {
    if d == [] then v else if d[0] == 32 then DecimalFrom(v, d[1..]) else DecimalFrom(v * 10 + (d[0] - Ch('0')), d[1..])
  }

  lemma ValueStep(p: Parser, b: byte, pos: nat)
    requires p.state == HeaderValue && p.headerState == ContentLength && IsNum(b)
    ensures StepByte(p, b, pos) == LengthDigit(p, 10, b - Ch('0'))
  {
  }

  lemma SpaceStep(p: Parser, pos: nat)
    requires p.state == HeaderValue && p.headerState == ContentLength
    ensures StepByte(p, 32, pos) == Go(p)
  {
  }

  /** Digits are taken as long as the int holds their value; at the first that it does not the parse stops. */
  lemma {:induction false} DigitsRun(p: Parser, log: seq<Event>, d: seq<byte>, base: nat)
    requires p.state == HeaderValue && p.headerState == ContentLength && 0 <= p.contentLength <= INT_MAX && Digits(d)
    ensures var value := DecimalFrom(p.contentLength, d);
            if value <= INT_MAX then Takes(p, log, d, base, p.(contentLength := value), log)
            else Process(p, log, d, base).status == Overflowed
    decreases |d|
  {
    hide Takes;
    hide Process;
    hide StepByte;
    if d == [] {
      TakesNone(p, log, base);
    } else {
      var q := if d[0] == 32 then p else p.(contentLength := p.contentLength * 10 + (d[0] - Ch('0')));
      if d[0] == 32 { SpaceStep(p, base); } else { ValueStep(p, d[0], base); }
      EmitNone(log);
      assert d == [d[0]] + d[1..];
      if q.contentLength <= INT_MAX {
        TakesOne(p, log, d[0], base);
        DigitsRun(q, log, d[1..], base + 1);
        if DecimalFrom(p.contentLength, d) <= INT_MAX {
          TakesBoth(p, log, [d[0]], base, q, log, d[1..], q.(contentLength := DecimalFrom(p.contentLength, d)), log);
        } else {
          TakenFirst(p, log, [d[0]], base, q, log, d[1..]);
        }
      } else {
        ProcessStep(p, log, d, base);
      }
    }
  }

  lemma FirstDigit(p: Parser, b: byte, pos: nat)
    requires p.state == HeaderValueStart && p.headerState == ContentLength && IsNum(b)
    ensures StepByte(p, b, pos) ==
            Go(p.(valueMark := Some(pos), state := HeaderValue, index := 0, contentLength := b - Ch('0')))
  {
  }

  /** The parser with the digits of a length read. */
  function Announced(p: Parser, value: nat, pos: nat): Parser {
    p.(valueMark := Some(pos), state := HeaderValue, index := 0, contentLength := value)
  }

  /** The digits of a Content-Length field come to their value, or to an overflow if the int cannot hold it. */
  lemma LengthRead(p: Parser, log: seq<Event>, d: seq<byte>, base: nat)
    requires p.state == HeaderValueStart && p.headerState == ContentLength && d != [] && Digits(d) && IsNum(d[0])
    ensures var value := DecimalFrom(0, d);
            && (value <= INT_MAX ==> Takes(p, log, d, base, Announced(p, value, base), log))
            && (value > INT_MAX <==> Process(p, log, d, base).status == Overflowed)
  {
    hide Process;
    hide StepByte;
    var q := Announced(p, d[0] - Ch('0'), base);
    FirstDigit(p, d[0], base);
    EmitNone(log);
    TakesOne(p, log, d[0], base);
    DigitsRun(q, log, d[1..], base + 1);
    assert d == [d[0]] + d[1..];
    if DecimalFrom(0, d) <= INT_MAX {
      TakesBoth(p, log, [d[0]], base, q, log, d[1..], Announced(p, DecimalFrom(0, d), base), log);
    } else {
      TakenFirst(p, log, [d[0]], base, q, log, d[1..]);
    }
  }

  /** The bound is that of an int of 32 bits. */
  lemma LengthOverflows(p: Parser, log: seq<Event>, d: seq<byte>, base: nat)
    requires p.state == HeaderValueStart && p.headerState == ContentLength && d != [] && Digits(d) && IsNum(d[0])
    ensures DecimalFrom(0, d) > 2147483647 <==> Process(p, log, d, base).status == Overflowed
  {
    hide Process;
    LengthRead(p, log, d, base);
  }

  // ---- The body ---------------------------------------------------------------------------------

  /** The parser when the headers of a message with a body of announced length are over. */
  function Opened(p: Parser): Parser {
    p.(state := BodyIdentity, savedLength := if p.contentLength > 0 then p.contentLength else 0)
  }

  predicate AnnouncesBody(p: Parser) {
    && p.state == HeadersAlmostDone && p.contentLength > 0
    && !p.flags.trailing && !p.flags.chunked && !p.flags.upgrade && !p.upgrade && p.verb != CONNECT
  }

  lemma HeadersEnd(p: Parser, b: byte, pos: nat)
    requires AnnouncesBody(p)
    ensures StepByte(p, b, pos) == Step(Opened(p), [HeadersComplete(Seen(Opened(p)))], Reading)
  {
  }

  /** Exactly as many bytes as were announced are the body, and then the message is complete. */
  lemma AnnouncedBody(p: Parser, log: seq<Event>, body: seq<byte>, rest: seq<byte>, base: nat)
    requires AnnouncesBody(p) && |body| == p.contentLength
    ensures var q := Opened(p).(contentLength := 0);
            Process(p, log, [LF] + body + rest, base) ==
            Call(q.(state := StartState(q.kind)),
                 log + [HeadersComplete(Seen(Opened(p))), Body(base + 1, base + 1 + |body|), MessageComplete(Seen(q))],
                 1 + |body|, Complete)
  {
    hide StepByte;
    hide Process;
    hide Seen;
    var q, data := Opened(p), [LF] + body + rest;
    var headers := HeadersComplete(Seen(q));
    HeadersEnd(p, LF, base);
    ProcessStep(p, log, data, base);
    EmitOne(log, headers);
    assert data[1..] == body + rest;
    BulkIdentity(q, log + [headers], body + rest, base + 1, |body|);
    assert log + [headers] + [Body(base + 1, base + 1 + |body|)] + [MessageComplete(Seen(q.(contentLength := 0)))]
        == log + [headers, Body(base + 1, base + 1 + |body|), MessageComplete(Seen(q.(contentLength := 0)))];
  }
}
