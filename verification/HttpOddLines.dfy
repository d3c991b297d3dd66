/**
 * Header lines of the kinds that section 5 of RFC 9112 has senders avoid: a line that continues the value of the one
 * before it, a name without a colon, and a name that holds something else.
 */
module HttpOddLines {
  import opened Common
  import opened HttpTypes
  import opened HttpStep
  import opened HttpRun
  import opened HttpHeaderNames
  import opened HttpHeaderLines
  import HttpLengths

  // ---- Continued lines ----------------------------------------------------------------------------

  lemma ContinuedStep(p: Parser, b: byte, pos: nat)
    requires p.state == HeaderValueLws && (b == 32 || b == 9)
    ensures StepByte(p, b, pos) == Go(p.(state := HeaderValueStart))
  {
  }

  lemma KindSame(p: Parser, q: Parser)
    requires q.headerState == p.headerState && q.flags == p.flags && q.contentLength == p.contentLength
    ensures KindOf(q) == KindOf(p) && MeaningOf(q) == MeaningOf(p)
  {
  }

  /**
   * A line that starts with blanks is handed over as one more value of the field before it. It can give another
   * length, and means nothing otherwise: a word that it adds is not looked at.
   */
  lemma ContinuedTaken(p: Parser, log: seq<Event>, blank: seq<byte>, v: seq<byte>, end: seq<byte>, base: nat)
    returns (q: Parser)
    requires p.state == HeaderValueLws && p.fieldMark == None && p.valueMark == None
    requires blank != [] && Blanks(blank) && ValueOk(v) && LineEnd(end)
    requires KindOf(p) == ContentLength && v != [] ==> LengthOk(v)
    ensures var at := base + |blank|;
            Takes(p, log, blank + (v + end), base, q,
                  log + [FieldValue(at, at + |v|, ValueSeen(KindOf(p), v, Seen(p)))])
    ensures Behind(p, q, ValueEffect(KindOf(p), v, MeaningOf(p)))
    ensures q.state == HeaderValueLws ==> KindOf(q) == FoldKind(KindOf(p), v)
  {
    hide *;
    var r, at := p.(state := HeaderValueStart), base + |blank|;
    BlankFirst(blank);
    ContinuedStep(p, blank[0], base);
    GoIs(r);
    TakesOne(p, log, blank[0], base);
    EmitNone(log);
    BlanksTaken(r, log, blank[1..], base + 1);
    TakesBoth(p, log, [blank[0]], base, r, log, blank[1..], r, log);
    KindSame(p, r);
    SeenAnywhere(p, r);
    q := ValueTaken(r, log, KindOf(p), v, end, at);
    BehindSame(p, r, q, ValueEffect(KindOf(p), v, MeaningOf(p)));
    TakesBoth(p, log, blank, base, r, log, v + end, q,
              log + [FieldValue(at, at + |v|, ValueSeen(KindOf(p), v, Seen(p)))]);
  }

  // ---- Names without a colon ----------------------------------------------------------------------

  /** Nothing is noted at the end of a line in these states. */
  predicate Wordless(h: HeaderState) {
    h != ValueKeepAlive && h != ValueClose && h != ValueChunked
  }

  lemma CharStep(p: Parser, b: byte, pos: nat)
    requires p.state == HeaderField && Token(b) != 0 && Wordless(p.headerState)
    ensures var q := StepByte(p, b, pos).p;
            && StepByte(p, b, pos) == Go(q) && q == p.(headerState := q.headerState, index := q.index)
            && Wordless(q.headerState)
  {
    hide Token;
    hide MatchName;
    NamesWordless(p.headerState, p.index, b);
    hide NextHeader;
  }

  lemma NamesWordless(h: HeaderState, index: nat, b: byte)
    requires Wordless(h)
    ensures Wordless(NextHeader(h, index, b, Token(b)).0)
  {
    hide Token;
  }

  lemma FirstWordless(t: byte)
    ensures Wordless(FirstHeader(t))
  {
  }

  lemma {:induction false} CharsRead(p: Parser, log: seq<Event>, f: seq<byte>, base: nat) returns (q: Parser)
    requires p.state == HeaderField && NameChars(f) && Wordless(p.headerState)
    ensures Takes(p, log, f, base, q, log) && q == p.(headerState := q.headerState, index := q.index)
    ensures Wordless(q.headerState)
    decreases |f|
  {
    hide StepByte;
    hide Takes;
    hide Token;
    if f == [] {
      TakesNone(p, log, base);
      q := p;
    } else {
      CharStep(p, f[0], base);
      var r := StepByte(p, f[0], base).p;
      TakesOne(p, log, f[0], base);
      EmitNone(log);
      q := CharsRead(r, log, f[1..], base + 1);
      TakesBoth(p, log, [f[0]], base, r, log, f[1..], q, log);
      assert f == [f[0]] + f[1..];
    }
  }

  /** A name so far. */
  lemma NameRead(p: Parser, log: seq<Event>, f: seq<byte>, base: nat) returns (q: Parser)
    requires p.state == HeaderFieldStart && f != [] && NameChars(f)
    ensures Takes(p, log, f, base, q, log)
    ensures q == p.(fieldMark := Some(base), state := HeaderField, headerState := q.headerState, index := q.index)
    ensures Wordless(q.headerState)
  {
    hide StepByte;
    hide Takes;
    hide Token;
    hide FirstHeader;
    FieldFirst(p, f[0], base);
    FirstWordless(Token(f[0]));
    var r := StepByte(p, f[0], base).p;
    TakesOne(p, log, f[0], base);
    EmitNone(log);
    q := CharsRead(r, log, f[1..], base + 1);
    TakesBoth(p, log, [f[0]], base, r, log, f[1..], q, log);
    assert f == [f[0]] + f[1..];
  }

  lemma BrokenStep(p: Parser, b: byte, pos: nat)
    requires (p.state == HeaderFieldStart || p.state == HeaderField) && Token(b) == 0 && b != CR && b != LF
    requires p.state == HeaderField ==> b != Ch(':')
    ensures StepByte(p, b, pos) == Fail(p)
  {
    hide Token;
  }

  lemma FailIs(p: Parser)
    ensures Fail(p) == Step(p, [], Failed)
  {
  }

  /** The byte b behind the characters f of a name: it is none, nor a colon behind one, nor does it end the line. */
  predicate Breaks(f: seq<byte>, b: byte) {
    Token(b) == 0 && b != CR && b != LF && (f != [] ==> b != Ch(':'))
  }

  lemma BreaksIs(f: seq<byte>, b: byte)
    ensures Breaks(f, b) <==> Token(b) == 0 && b != CR && b != LF && (f != [] ==> b != Ch(':'))
  {
  }

  /** A name fails at the first byte that is no character of a name, unless it is a colon or ends the line. */
  lemma BrokenName(p: Parser, log: seq<Event>, f: seq<byte>, b: byte, rest: seq<byte>, base: nat)
    requires p.state == HeaderFieldStart && NameChars(f) && Breaks(f, b)
    ensures var c := Process(p, log, f + ([b] + rest), base);
            c.status == Failed && c.consumed == |f| + 1 && c.log == log
  {
    hide *;
    EmitNone(log);
    BreaksIs(f, b);
    var data := [b] + rest;
    if f == [] {
      BrokenStep(p, b, base);
      FailIs(p);
      assert f + data == data;
      ProcessStep(p, log, data, base);
    } else {
      var q := NameRead(p, log, f, base);
      BrokenStep(q, b, base + |f|);
      FailIs(q);
      TakenFirst(p, log, f, base, q, log, data);
      LaterIs(|f|, Process(q, log, data, base + |f|));
      ProcessStep(q, log, data, base + |f|);
    }
  }

  lemma NamelessSteps(p: Parser, pos: nat, mark: nat)
    requires p.state == HeaderField && p.fieldMark == Some(mark)
    ensures StepByte(p, LF, pos) ==
            Step(p.(fieldMark := None, state := HeaderFieldStart), [FieldName(mark, pos, Seen(p))], Reading)
    ensures StepByte(p, CR, pos) ==
            Step(p.(fieldMark := None, state := HeaderAlmostDone), [FieldName(mark, pos, Seen(p))], Reading)
  {
    hide Seen;
  }

  lemma NothingKept(h: HeaderState, flags: Flags)
    requires Wordless(h)
    ensures NotedFlags(h, flags) == flags
  {
  }

  /** A name at which the line ends is handed over, without a value, and means nothing. */
  lemma NamelessTaken(p: Parser, log: seq<Event>, f: seq<byte>, end: seq<byte>, base: nat) returns (q: Parser)
    requires p.state == HeaderFieldStart && p.fieldMark == None && p.valueMark == None
    requires f != [] && NameChars(f) && LineEnd(end)
    ensures Takes(p, log, f + end, base, q, log + [FieldName(base, base + |f|, Seen(p))])
    ensures Behind(p, q, MeaningOf(p))
  {
    hide *;
    var at, call := base + |f|, FieldName(base, base + |f|, Seen(p));
    var r := NameRead(p, log, f, base);
    NamelessSteps(r, at, base);
    NothingKept(r.headerState, r.flags);
    SeenAnywhere(p, r);
    EmitQuiet(log, call);
    LineEndIs(end);
    MeaningIs(p);
    if end == [LF] {
      q := r.(fieldMark := None, state := HeaderFieldStart);
      TakesOne(r, log, LF, at);
    } else {
      var s := r.(fieldMark := None, state := HeaderAlmostDone);
      q := s.(state := HeaderValueLws);
      TakesOne(r, log, CR, at);
      LineEndStep(s, end[1], at + 1);
      GoIs(q);
      TakesOne(s, log + [call], end[1], at + 1);
      EmitNone(log + [call]);
      TakesBoth(r, log, [CR], at, s, log + [call], [end[1]], q, log + [call]);
    }
    BehindIs(p, q, MeaningOf(p));
    TakesBoth(p, log, f, base, r, log, end, q, log + [call]);
  }

  // ---- Lengths that are no number -----------------------------------------------------------------

  lemma BrokenDigit(p: Parser, b: byte, pos: nat)
    requires (p.state == HeaderValueStart || p.state == HeaderValue) && p.headerState == ContentLength
    requires !IsNum(b) && b != 32 && b != CR && b != LF && (p.state == HeaderValueStart ==> b != 9)
    ensures StepByte(p, b, pos).status == Failed
  {
  }

  lemma NumberSplit(d: seq<byte>)
    requires IsNumber(d)
    ensures d != [] && HttpLengths.Digits(d) && IsNum(d[0])
  {
  }

  /** A length fails at the first byte that is neither a digit nor a space, unless it ends the line. */
  lemma BrokenLength(p: Parser, log: seq<Event>, d: seq<byte>, b: byte, rest: seq<byte>, base: nat)
    requires p.state == HeaderValueStart && p.headerState == ContentLength && (d == [] || LengthOk(d))
    requires !IsNum(b) && b != 32 && b != CR && b != LF && (d == [] ==> b != 9)
    ensures var c := Process(p, log, d + ([b] + rest), base);
            c.status == Failed && c.consumed == |d| + 1
  {
    hide *;
    var data := [b] + rest;
    if d == [] {
      BrokenDigit(p, b, base);
      assert d + data == data;
      ProcessStep(p, log, data, base);
    } else {
      LengthFacts(d);
      NumberSplit(d);
      var value := HttpLengths.DecimalFrom(0, d);
      var q := HttpLengths.Announced(p, value, base);
      AnnouncedIs(p, value, base);
      HttpLengths.LengthRead(p, log, d, base);
      BrokenDigit(q, b, base + |d|);
      TakenFirst(p, log, d, base, q, log, data);
      LaterIs(|d|, Process(q, log, data, base + |d|));
      ProcessStep(q, log, data, base + |d|);
    }
  }

  /** The same where a line may start, behind others, if it does not continue the one before. */
  lemma BrokenLine(p: Parser, log: seq<Event>, f: seq<byte>, b: byte, rest: seq<byte>, base: nat)
    requires AtLineStart(p) && NameChars(f) && Breaks(f, b) && (f != [] ==> f[0] != 32) && (f == [] ==> b != 9)
    ensures var c := Process(p, log, f + ([b] + rest), base);
            c.status == Failed && c.consumed == |f| + 1 && c.log == log
  {
    hide *;
    var data, q := f + ([b] + rest), p.(state := HeaderFieldStart);
    LineStartMarks(p);
    NoBlank(f, b);
    assert data[0] == if f == [] then b else f[0];
    if p.state == HeaderValueLws { LineStart(p, log, data, base); }
    BrokenName(q, log, f, b, rest, base);
  }

  lemma NoBlank(f: seq<byte>, b: byte)
    requires NameChars(f) && Breaks(f, b)
    ensures b != 32 && (f != [] ==> f[0] != 9)
  {
  }
}
