/**
 * Header lines (section 5 of RFC 9112) through the HTTP/1.1 parser: what each of them says of the body and
 * of the connection, and the two calls it makes.
 */
module HttpHeaderLines {
  import opened Common
  import opened HttpTypes
  import opened HttpStep
  import opened HttpRun
  import opened HttpHeaderNames
  import opened HttpHeaderValues
  import HttpLengths

  /** A field as it is sent: its name, the blanks behind the colon, its value, and the end of its line. */
  datatype Header = Header(name: seq<byte>, blank: seq<byte>, value: seq<byte>, end: seq<byte>)

  /** A line feed, or a carriage return and the byte behind it, at which the source takes any. */
  predicate LineEnd(e: seq<byte>) {
    e == [LF] || (|e| == 2 && e[0] == CR)
  }

  predicate NameOk(f: seq<byte>) {
    f != [] && NameChars(f) && f[0] != 32
  }

  predicate Blanks(s: seq<byte>) {
    forall i :: 0 <= i < |s| ==> s[i] == 32 || s[i] == 9
  }

  predicate ValueOk(v: seq<byte>) {
    (v != [] ==> v[0] != 32 && v[0] != 9) && forall i :: 0 <= i < |v| ==> v[i] != CR && v[i] != LF
  }

  /** The field that a name stands for, if it is one that the parser knows. */
  function FieldKind(f: seq<byte>): HeaderState {
    var name := Trimmed(Lowered(f));
    if Is(name, HTTP_CONNECTION) || Is(name, HTTP_PROXY_CONNECTION) then Connection
    else if Is(name, HTTP_CONTENT_LENGTH) then ContentLength
    else if Is(name, HTTP_TRANSFER_ENCODING) then TransferEncoding
    else if Is(name, HTTP_UPGRADE) then Upgrade
    else General
  }

  /** A number, with any spaces among and behind its digits. */
  predicate IsNumber(v: seq<byte>) {
    v != [] && IsNum(v[0]) && HttpLengths.Digits(v)
  }

  /** A field of any name and value, but for a length that is no number or leaves its int. */
  predicate HeaderOk(h: Header) {
    && NameOk(h.name) && Blanks(h.blank) && ValueOk(h.value) && LineEnd(h.end)
    && (FieldKind(h.name) == ContentLength && h.value != [] ==>
          IsNumber(h.value) && HttpLengths.DecimalFrom(0, h.value) <= INT_MAX)
  }

  /** What header lines come to: the flags, and the length of the body, which is -1 until it is announced. */
  datatype Meaning = Meaning(flags: Flags, length: int)

  function ValueEffect(kind: HeaderState, v: seq<byte>, m: Meaning): Meaning {
    match kind
    case Connection =>
      if Says(v, HTTP_KEEP_ALIVE) then m.(flags := m.flags.(keepAlive := true))
      else if Says(v, HTTP_CLOSE) then m.(flags := m.flags.(close := true))
      else m
    case TransferEncoding => if Says(v, HTTP_CHUNKED) then m.(flags := m.flags.(chunked := true)) else m
    case ContentLength => if IsNumber(v) then m.(length := HttpLengths.DecimalFrom(0, v)) else m
    case Upgrade => if v != [] then m.(flags := m.flags.(upgrade := true)) else m
    case _ => m
  }

  function Effect(h: Header, m: Meaning): Meaning {
    ValueEffect(FieldKind(h.name), h.value, m)
  }

  function HeaderWire(h: Header): seq<byte> {
    h.name + [58] + h.blank + (h.value + h.end)
  }

  /** Where a header line may start. */
  predicate AtLineStart(p: Parser) {
    (p.state == HeaderFieldStart || p.state == HeaderValueLws) && p.fieldMark == None && p.valueMark == None
  }

  function MeaningOf(p: Parser): Meaning {
    Meaning(p.flags, p.contentLength)
  }

  /** The parser q is behind header lines that p was in front of, and that came to m. */
  predicate Behind(p: Parser, q: Parser, m: Meaning) {
    && AtLineStart(q)
    && q == p.(state := q.state, headerState := q.headerState, index := q.index, fieldMark := None, valueMark := None,
               flags := m.flags, contentLength := m.length)
  }

  // ---- The name ---------------------------------------------------------------------------------

  lemma FoldStep(p: Parser, b: byte, pos: nat)
    requires p.state == HeaderValueLws && b != 32 && b != 9
    ensures StepByte(p, b, pos) == StepByte(p.(state := HeaderFieldStart), b, pos)
  {
  }

  lemma LineStart(p: Parser, log: seq<Event>, data: seq<byte>, base: nat)
    requires p.state == HeaderValueLws && data != [] && data[0] != 32 && data[0] != 9
    ensures Process(p, log, data, base) == Process(p.(state := HeaderFieldStart), log, data, base)
  {
    hide *;
    FoldStep(p, data[0], base);
    ProcessStep(p, log, data, base);
    ProcessStep(p.(state := HeaderFieldStart), log, data, base);
  }

  lemma NameFirst(f: seq<byte>)
    requires NameOk(f)
    ensures f != [] && NameChars(f) && f[0] != 32 && f[0] != 9
  {
  }

  lemma ConcatFirst(f: seq<byte>)
    requires f != []
    ensures f + [58] != [] && (f + [58])[0] == f[0] && |f + [58]| == |f| + 1
  {
  }

  lemma TakesIs(p: Parser, log: seq<Event>, a: seq<byte>, base: nat)
    requires Process(p, log, a, base).status == Reading
    ensures Takes(p, log, a, base, Process(p, log, a, base).p, Process(p, log, a, base).log)
  {
  }

  /** What the state of the recogniser says of a name. */
  ghost predicate Tells(h: HeaderState, f: seq<byte>) {
    var name := Trimmed(Lowered(f));
    && (h == Connection <==> Is(name, HTTP_CONNECTION) || Is(name, HTTP_PROXY_CONNECTION))
    && (h == ContentLength <==> Is(name, HTTP_CONTENT_LENGTH))
    && (h == TransferEncoding <==> Is(name, HTTP_TRANSFER_ENCODING))
    && (h == Upgrade <==> Is(name, HTTP_UPGRADE))
  }

  lemma NameTold(p: Parser, log: seq<Event>, f: seq<byte>, base: nat)
    requires p.state == HeaderFieldStart && f != [] && NameChars(f)
    ensures var c := Process(p, log, f + [58], base);
            && c.status == Reading && c.log == EmitAll(log, [FieldName(base, base + |f|, Seen(p))])
            && c.p == p.(fieldMark := None, state := HeaderValueStart, headerState := c.p.headerState, index := c.p.index)
            && Tells(c.p.headerState, f)
  {
    hide Process;
    hide Trimmed;
    hide Is;
    hide Emit;
    hide EmitAll;
    hide Seen;
    EmitOne(log, FieldName(base, base + |f|, Seen(p)));
    NameRecognised(p, log, f, base);
  }

  /** A name at the start of a line, and its colon. */
  lemma NameTaken(p: Parser, log: seq<Event>, f: seq<byte>, base: nat) returns (q: Parser)
    requires AtLineStart(p) && NameOk(f)
    ensures Takes(p, log, f + [58], base, q, log + [FieldName(base, base + |f|, Seen(p))])
    ensures q == p.(state := HeaderValueStart, headerState := q.headerState, index := q.index) && Tells(q.headerState, f)
  {
    hide *;
    LineStartMarks(p);
    var data, start := f + [58], p.(state := HeaderFieldStart);
    NameFirst(f);
    ConcatFirst(f);
    if p.state == HeaderValueLws { LineStart(p, log, data, base); }
    NameTold(start, log, f, base);
    SeenAnywhere(p, start);
    EmitQuiet(log, FieldName(base, base + |f|, Seen(p)));
    TakesIs(p, log, data, base);
    q := Process(p, log, data, base).p;
  }

  lemma LineStartMarks(p: Parser)
    requires AtLineStart(p)
    ensures p.fieldMark == None && p.valueMark == None && (p.state == HeaderFieldStart || p.state == HeaderValueLws)
  {
  }

  // ---- The value --------------------------------------------------------------------------------

  lemma BlankStep(p: Parser, b: byte, pos: nat)
    requires p.state == HeaderValueStart && (b == 32 || b == 9)
    ensures StepByte(p, b, pos) == Go(p)
  {
  }

  lemma BlankFirst(s: seq<byte>)
    requires Blanks(s) && s != []
    ensures (s[0] == 32 || s[0] == 9) && Blanks(s[1..]) && s == [s[0]] + s[1..]
  {
  }

  lemma {:induction false} BlanksTaken(p: Parser, log: seq<Event>, s: seq<byte>, base: nat)
    requires p.state == HeaderValueStart && Blanks(s)
    ensures Takes(p, log, s, base, p, log)
    decreases |s|
  {
    hide *;
    if s == [] {
      TakesNone(p, log, base);
    } else {
      BlankFirst(s);
      BlankStep(p, s[0], base);
      GoIs(p);
      TakesOne(p, log, s[0], base);
      EmitNone(log);
      BlanksTaken(p, log, s[1..], base + 1);
      TakesBoth(p, log, [s[0]], base, p, log, s[1..], p, log);
    }
  }

  /** The end of a value at its carriage return, and of the line at the byte behind it. */
  lemma ValueEndSteps(p: Parser, pos: nat, mark: nat)
    requires p.state == HeaderValue && p.valueMark == Some(mark)
    ensures StepByte(p, CR, pos) ==
            Step(p.(valueMark := None, state := HeaderAlmostDone), [FieldValue(mark, pos, Seen(p))], Reading)
  {
    hide Seen;
  }

  lemma LineEndStep(p: Parser, b: byte, pos: nat)
    requires p.state == HeaderAlmostDone
    ensures StepByte(p, b, pos) == Go(p.(state := HeaderValueLws, flags := NotedFlags(p.headerState, p.flags)))
  {
    hide NotedFlags;
  }

  lemma BareEndStep(p: Parser, pos: nat, mark: nat)
    requires p.state == HeaderValue && p.valueMark == Some(mark)
    ensures StepByte(p, LF, pos) ==
            Step(p.(valueMark := None, state := HeaderValueLws, flags := NotedFlags(p.headerState, p.flags)),
                 [FieldValue(mark, pos, Seen(p))], Reading)
  {
    hide Seen;
    hide NotedFlags;
  }

  lemma LineEndIs(e: seq<byte>)
    requires LineEnd(e)
    ensures e == [LF] || e == [CR] + [e[1]]
  {
  }

  /** The end of the line behind a value. */
  lemma ValueEnds(p: Parser, log: seq<Event>, end: seq<byte>, base: nat, mark: nat)
    requires p.state == HeaderValue && p.valueMark == Some(mark) && LineEnd(end)
    ensures Takes(p, log, end, base,
                  p.(valueMark := None, state := HeaderValueLws, flags := NotedFlags(p.headerState, p.flags)),
                  log + [FieldValue(mark, base, Seen(p))])
  {
    hide *;
    var q, next := p.(valueMark := None, state := HeaderAlmostDone), log + [FieldValue(mark, base, Seen(p))];
    var r := q.(state := HeaderValueLws, flags := NotedFlags(q.headerState, q.flags));
    LineEndIs(end);
    EmitQuiet(log, FieldValue(mark, base, Seen(p)));
    if end == [LF] {
      BareEndStep(p, base, mark);
      TakesOne(p, log, LF, base);
    } else {
      ValueEndSteps(p, base, mark);
      TakesOne(p, log, CR, base);
      LineEndStep(q, end[1], base + 1);
      GoIs(r);
      TakesOne(q, next, end[1], base + 1);
      EmitNone(next);
      TakesBoth(p, log, [CR], base, q, next, [end[1]], r, next);
    }
  }

  predicate Meaningless(h: HeaderState) {
    h != Upgrade && h != TransferEncoding && h != ContentLength && h != Connection
  }

  lemma PlainFirstStep(p: Parser, b: byte, pos: nat)
    requires p.state == HeaderValueStart && Meaningless(p.headerState) && b != 32 && b != 9 && b != CR && b != LF
    ensures StepByte(p, b, pos) == Go(p.(valueMark := Some(pos), state := HeaderValue, index := 0, headerState := General))
  {
  }

  lemma PlainStep(p: Parser, b: byte, pos: nat)
    requires p.state == HeaderValue && p.headerState == General && b != CR && b != LF
    ensures StepByte(p, b, pos) == Go(p)
  {
  }

  lemma {:induction false} PlainRun(p: Parser, log: seq<Event>, v: seq<byte>, base: nat)
    requires p.state == HeaderValue && p.headerState == General && forall i :: 0 <= i < |v| ==> v[i] != CR && v[i] != LF
    ensures Takes(p, log, v, base, p, log)
    decreases |v|
  {
    hide *;
    if v == [] {
      TakesNone(p, log, base);
    } else {
      PlainStep(p, v[0], base);
      GoIs(p);
      TakesOne(p, log, v[0], base);
      EmitNone(log);
      PlainRun(p, log, v[1..], base + 1);
      TakesBoth(p, log, [v[0]], base, p, log, v[1..], p, log);
      assert v == [v[0]] + v[1..];
    }
  }

  lemma EmptyValueStep(p: Parser, pos: nat)
    requires p.state == HeaderValueStart
    ensures StepByte(p, CR, pos) ==
            Step(p.(valueMark := None, index := 0, headerState := General, state := HeaderAlmostDone),
                 [FieldValue(pos, pos, Seen(p))], Reading)
  {
    SeenAnywhere(p, p.(valueMark := Some(pos), state := HeaderValue, index := 0));
    hide Seen;
  }

  lemma ValueFacts(v: seq<byte>)
    requires ValueOk(v)
    ensures v != [] ==> v[0] != 32 && v[0] != 9 && v[0] != CR && v[0] != LF && v == [v[0]] + v[1..]
    ensures NoLineEnd(v) && forall i :: 0 <= i < |v| ==> v[i] != CR && v[i] != LF
  {
  }

  lemma BareEmptyStep(p: Parser, pos: nat)
    requires p.state == HeaderValueStart
    ensures StepByte(p, LF, pos) ==
            Step(p.(valueMark := None, index := 0, state := HeaderFieldStart), [FieldValue(pos, pos, Seen(p))], Reading)
  {
    SeenAnywhere(p, p.(valueMark := Some(pos), state := HeaderValue, index := 0));
    hide Seen;
  }

  /** A field without a value, and the end of its line. */
  lemma EmptyValueTaken(p: Parser, log: seq<Event>, end: seq<byte>, base: nat) returns (q: Parser)
    requires p.state == HeaderValueStart && p.fieldMark == None && p.valueMark == None && LineEnd(end)
    ensures Takes(p, log, end, base, q, log + [FieldValue(base, base, Seen(p))])
    ensures q == if end == [LF] then p.(state := HeaderFieldStart, index := 0)
                 else p.(state := HeaderValueLws, headerState := General, index := 0)
  {
    hide *;
    var call, r := FieldValue(base, base, Seen(p)), p.(index := 0, headerState := General, state := HeaderAlmostDone);
    LineEndIs(end);
    EmitQuiet(log, call);
    if end == [LF] {
      q := p.(state := HeaderFieldStart, index := 0);
      BareEmptyStep(p, base);
      TakesOne(p, log, LF, base);
    } else {
      q := r.(state := HeaderValueLws);
      EmptyValueStep(p, base);
      TakesOne(p, log, CR, base);
      LineEndStep(r, end[1], base + 1);
      NothingNoted(r.flags);
      GoIs(q);
      TakesOne(r, log + [call], end[1], base + 1);
      EmitNone(log + [call]);
      TakesBoth(p, log, [CR], base, r, log + [call], [end[1]], q, log + [call]);
    }
  }

  lemma NothingNoted(flags: Flags)
    ensures NotedFlags(General, flags) == flags && NotedFlags(ContentLength, flags) == flags
  {
  }

  /** A value of which only the first byte counts, and the end of its line. */
  lemma PlainValueTaken(p: Parser, log: seq<Event>, v: seq<byte>, end: seq<byte>, base: nat) returns (q: Parser)
    requires p.state == HeaderValueStart && p.fieldMark == None && p.valueMark == None && LineEnd(end)
    requires (Meaningless(p.headerState) || p.headerState == Upgrade) && ValueOk(v) && v != []
    ensures var m := ValueEffect(p.headerState, v, MeaningOf(p));
            && Takes(p, log, v + end, base, q, log + [FieldValue(base, base + |v|, Seen(p.(flags := m.flags)))])
            && q == p.(state := HeaderValueLws, headerState := General, index := 0, flags := m.flags)
  {
    hide *;
    ValueFacts(v);
    MeaninglessIs(p.headerState);
    MeaningIs(p);
    ValueEffects(p.headerState, v, MeaningOf(p));
    var m := ValueEffect(p.headerState, v, MeaningOf(p));
    NothingNoted(m.flags);
    var r := p.(valueMark := Some(base), state := HeaderValue, index := 0, headerState := General, flags := m.flags);
    q := p.(state := HeaderValueLws, headerState := General, index := 0, flags := m.flags);
    if p.headerState == Upgrade { UpgradeFirstStep(p, v[0], base); } else { PlainFirstStep(p, v[0], base); }
    GoIs(r);
    TakesOne(p, log, v[0], base);
    EmitNone(log);
    PlainRun(r, log, v[1..], base + 1);
    TakesBoth(p, log, [v[0]], base, r, log, v[1..], r, log);
    ValueEnds(r, log, end, base + |v|, base);
    SeenAnywhere(p.(flags := m.flags), r);
    TakesBoth(p, log, v, base, r, log, end, q, log + [FieldValue(base, base + |v|, Seen(p.(flags := m.flags)))]);
  }

  lemma UpgradeFirstStep(p: Parser, b: byte, pos: nat)
    requires p.state == HeaderValueStart && p.headerState == Upgrade && b != 32 && b != 9 && b != CR && b != LF
    ensures StepByte(p, b, pos) ==
            Go(p.(valueMark := Some(pos), state := HeaderValue, index := 0, headerState := General,
                  flags := p.flags.(upgrade := true)))
  {
  }

  lemma AnnouncedIs(p: Parser, size: nat, base: nat)
    ensures HttpLengths.Announced(p, size, base) ==
            p.(valueMark := Some(base), state := HeaderValue, index := 0, contentLength := size)
  {
  }

  lemma NumberFacts(v: seq<byte>)
    requires IsNumber(v)
    ensures v != [] && HttpLengths.Digits(v) && IsNum(v[0])
  {
  }

  /** A number, and the end of its line. */
  lemma LengthValueTaken(p: Parser, log: seq<Event>, v: seq<byte>, size: nat, end: seq<byte>, base: nat)
    returns (q: Parser)
    requires p.state == HeaderValueStart && p.headerState == ContentLength && p.fieldMark == None && p.valueMark == None
    requires IsNumber(v) && HttpLengths.DecimalFrom(0, v) == size <= INT_MAX && LineEnd(end)
    ensures Takes(p, log, v + end, base, q, log + [FieldValue(base, base + |v|, Seen(p))])
    ensures q == p.(state := HeaderValueLws, index := 0, contentLength := size)
  {
    hide *;
    NumberFacts(v);
    var r := HttpLengths.Announced(p, size, base);
    q := p.(state := HeaderValueLws, index := 0, contentLength := size);
    AnnouncedIs(p, size, base);
    NothingNoted(p.flags);
    HttpLengths.LengthRead(p, log, v, base);
    ValueEnds(r, log, end, base + |v|, base);
    SeenAnywhere(p, r);
    TakesBoth(p, log, v, base, r, log, end, q, log + [FieldValue(base, base + |v|, Seen(p))]);
  }

  // ---- Words ------------------------------------------------------------------------------------

  /** The word that the first byte of a value could begin. */
  function WordOf(kind: HeaderState, b: byte): Word {
    if kind == TransferEncoding then CHUNKED else if Lower(b) == Ch('k') then KEEP_ALIVE else CLOSE
  }

  lemma WordFirstStep(p: Parser, b: byte, pos: nat)
    requires p.state == HeaderValueStart && (p.headerState == Connection || p.headerState == TransferEncoding)
    requires b != 32 && b != 9 && b != CR && b != LF
    ensures var w := WordOf(p.headerState, b);
            && IsWord(w) && w.text != ""
            && StepByte(p, b, pos) ==
               Go(p.(valueMark := Some(pos), state := HeaderValue, index := 0,
                     headerState := if Lower(b) == w.text[0] as int then w.matching else General))
  {
  }

  /** What is noted of a word when its line ends. */
  lemma WordNoted(kind: HeaderState, v: seq<byte>, h: HeaderState, index: nat, m: Meaning)
    requires v != [] && (kind == Connection || kind == TransferEncoding) && Follows(h, index, v, WordOf(kind, v[0]))
    ensures ValueEffect(kind, v, m) == m.(flags := NotedFlags(h, m.flags))
  {
    hide Says;
    hide Begins;
    hide Lower;
    if Says(v, HTTP_KEEP_ALIVE) { SaysFirst(v, KEEP_ALIVE); }
    if Says(v, HTTP_CLOSE) { SaysFirst(v, CLOSE); }
  }

  lemma FollowsWords(h: HeaderState, index: nat, v: seq<byte>, w: Word)
    requires IsWord(w) && Follows(h, index, v, w)
    ensures Meaningless(h)
  {
    hide Says;
    hide Begins;
  }

  lemma WholeIs(v: seq<byte>)
    requires v != []
    ensures v[..1] == [v[0]] && v == [v[0]] + v[1..]
  {
  }

  /** A value that may be a word, and the end of its line. */
  lemma WordValueTaken(p: Parser, log: seq<Event>, v: seq<byte>, end: seq<byte>, base: nat) returns (q: Parser)
    requires p.state == HeaderValueStart && p.fieldMark == None && p.valueMark == None && LineEnd(end)
    requires (p.headerState == Connection || p.headerState == TransferEncoding) && ValueOk(v) && v != []
    ensures Takes(p, log, v + end, base, q, log + [FieldValue(base, base + |v|, Seen(p))])
    ensures q == p.(state := HeaderValueLws, headerState := q.headerState, index := q.index,
                    flags := ValueEffect(p.headerState, v, MeaningOf(p)).flags)
    ensures Meaningless(q.headerState)
  {
    hide *;
    ValueFacts(v);
    WholeIs(v);
    var w := WordOf(p.headerState, v[0]);
    WordFirstStep(p, v[0], base);
    FollowFirst(v[0], w);
    var r := p.(valueMark := Some(base), state := HeaderValue, index := 0,
                headerState := if Lower(v[0]) == w.text[0] as int then w.matching else General);
    GoIs(r);
    TakesOne(p, log, v[0], base);
    EmitNone(log);
    var h, index := WordRun(r, log, v, 1, w, base + 1);
    var t := r.(headerState := h, index := index);
    TakesBoth(p, log, [v[0]], base, r, log, v[1..], t, log);
    WordNoted(p.headerState, v, h, index, MeaningOf(p));
    FollowsWords(h, index, v, w);
    MeaningIs(p);
    ValueEnds(t, log, end, base + |v|, base);
    SeenAnywhere(p, t);
    q := t.(valueMark := None, state := HeaderValueLws, flags := NotedFlags(h, p.flags));
    TakesBoth(p, log, v, base, t, log, end, q, log + [FieldValue(base, base + |v|, Seen(p))]);
  }

  lemma MeaningIs(p: Parser)
    ensures MeaningOf(p) == Meaning(p.flags, p.contentLength)
  {
  }

  // ---- A whole line -----------------------------------------------------------------------------

  lemma KindTold(h: HeaderState, f: seq<byte>)
    requires Tells(h, f)
    ensures FieldKind(f) == if Meaningless(h) then General else h
  {
    hide Trimmed;
    hide Is;
  }

  predicate LengthOk(v: seq<byte>) {
    IsNumber(v) && HttpLengths.DecimalFrom(0, v) <= INT_MAX
  }

  lemma HeaderFacts(h: Header)
    requires HeaderOk(h)
    ensures NameOk(h.name) && Blanks(h.blank) && ValueOk(h.value) && LineEnd(h.end)
    ensures FieldKind(h.name) == ContentLength && h.value != [] ==> LengthOk(h.value)
  {
  }

  lemma LengthFacts(v: seq<byte>)
    requires LengthOk(v)
    ensures IsNumber(v) && HttpLengths.Digits(v) && 0 <= HttpLengths.DecimalFrom(0, v) <= INT_MAX
  {
  }

  lemma ValueEffects(kind: HeaderState, v: seq<byte>, m: Meaning)
    ensures Meaningless(kind) || v == [] ==> ValueEffect(kind, v, m) == m
    ensures kind == Upgrade && v != [] ==> ValueEffect(kind, v, m) == m.(flags := m.flags.(upgrade := true))
    ensures ValueEffect(kind, v, m).flags == m.flags || kind == Connection || kind == TransferEncoding || kind == Upgrade
    ensures kind == Connection || kind == TransferEncoding ==> ValueEffect(kind, v, m).length == m.length
    ensures kind == ContentLength && IsNumber(v) ==> ValueEffect(kind, v, m) == m.(length := HttpLengths.DecimalFrom(0, v))
  {
  }

  lemma BehindIs(p: Parser, q: Parser, m: Meaning)
    requires (q.state == HeaderFieldStart || q.state == HeaderValueLws) && p.fieldMark == None && p.valueMark == None
    requires q == p.(state := q.state, headerState := q.headerState, index := q.index, flags := m.flags,
                     contentLength := m.length)
    ensures Behind(p, q, m)
  {
  }

  lemma MeaninglessIs(h: HeaderState)
    ensures Meaningless(h) <==> h != Upgrade && h != TransferEncoding && h != ContentLength && h != Connection
  {
  }

  /** The field that the parser takes the value for. */
  function KindOf(p: Parser): HeaderState {
    if Meaningless(p.headerState) then General else p.headerState
  }

  /** The field that it takes a line for that continues a value: only a length goes on. */
  function FoldKind(kind: HeaderState, v: seq<byte>): HeaderState {
    if kind == ContentLength && v != [] then ContentLength else General
  }

  lemma KindOfIs(p: Parser)
    ensures KindOf(p) == if Meaningless(p.headerState) then General else p.headerState
  {
  }

  lemma FoldKindIs(kind: HeaderState, v: seq<byte>)
    ensures FoldKind(kind, v) == if kind == ContentLength && v != [] then ContentLength else General
  {
  }

  /** What a handler sees at a value: an upgrade that is asked for shows already, the other flags do not. */
  function ValueSeen(kind: HeaderState, v: seq<byte>, seen: Snapshot): Snapshot {
    if kind == Upgrade && v != [] then seen.(flags := seen.flags.(upgrade := true)) else seen
  }

  lemma ValueSeenIs(kind: HeaderState, v: seq<byte>, p: Parser)
    ensures kind == Upgrade && v != [] ==> ValueSeen(kind, v, Seen(p)) == Seen(p.(flags := p.flags.(upgrade := true)))
    ensures kind != Upgrade || v == [] ==> ValueSeen(kind, v, Seen(p)) == Seen(p)
  {
  }

  /** A value and the end of its line. */
  lemma ValueTaken(p: Parser, log: seq<Event>, kind: HeaderState, v: seq<byte>, end: seq<byte>, base: nat)
    returns (q: Parser)
    requires p.state == HeaderValueStart && p.fieldMark == None && p.valueMark == None && ValueOk(v) && LineEnd(end)
    requires kind == KindOf(p)
    requires kind == ContentLength && v != [] ==> LengthOk(v)
    ensures Takes(p, log, v + end, base, q, log + [FieldValue(base, base + |v|, ValueSeen(kind, v, Seen(p)))])
    ensures Behind(p, q, ValueEffect(kind, v, MeaningOf(p)))
    ensures q.state == HeaderValueLws ==> KindOf(q) == FoldKind(kind, v)
  {
    hide *;
    KindOfIs(p);
    FoldKindIs(kind, v);
    MeaningIs(p);
    MeaninglessIs(p.headerState);
    MeaninglessIs(General);
    ValueEffects(p.headerState, v, MeaningOf(p));
    ValueEffects(kind, v, MeaningOf(p));
    ValueSeenIs(kind, v, p);
    if v == [] {
      q := EmptyValueTaken(p, log, end, base);
      assert v + end == end;
    } else if kind == General || kind == Upgrade {
      q := PlainValueTaken(p, log, v, end, base);
    } else if kind == ContentLength {
      LengthFacts(v);
      q := LengthValueTaken(p, log, v, HttpLengths.DecimalFrom(0, v), end, base);
    } else {
      q := WordValueTaken(p, log, v, end, base);
    }
    KindOfIs(q);
    BehindIs(p, q, ValueEffect(kind, v, MeaningOf(p)));
  }

  /** Where the value of a field starts, when its line starts at base. */
  function ValueAt(h: Header, base: nat): nat {
    base + |h.name| + 1 + |h.blank|
  }

  function HeaderCalls(h: Header, seen: Snapshot, base: nat): seq<Event> {
    [FieldName(base, base + |h.name|, seen),
     FieldValue(ValueAt(h, base), ValueAt(h, base) + |h.value|, ValueSeen(FieldKind(h.name), h.value, seen))]
  }

  lemma HeaderWireIs(h: Header)
    ensures HeaderWire(h) == h.name + [58] + h.blank + (h.value + h.end)
    ensures |h.name + [58] + h.blank| == |h.name| + 1 + |h.blank|
  {
  }

  lemma HeaderCallsAre(h: Header, seen: Snapshot, log: seq<Event>, base: nat)
    ensures var at := base + (|h.name| + 1 + |h.blank|);
            log + HeaderCalls(h, seen, base) ==
            log + [FieldName(base, base + |h.name|, seen)]
            + [FieldValue(at, at + |h.value|, ValueSeen(FieldKind(h.name), h.value, seen))]
  {
    hide FieldKind;
    hide ValueSeen;
  }

  /** A colon, and the blanks behind it. */
  lemma ToValue(p: Parser, log: seq<Event>, f: seq<byte>, blank: seq<byte>, base: nat) returns (q: Parser)
    requires AtLineStart(p) && NameOk(f) && Blanks(blank)
    ensures Takes(p, log, f + [58] + blank, base, q, log + [FieldName(base, base + |f|, Seen(p))])
    ensures q == p.(state := HeaderValueStart, headerState := q.headerState, index := q.index) && Tells(q.headerState, f)
    ensures q.fieldMark == None && q.valueMark == None
  {
    hide *;
    LineStartMarks(p);
    var next := log + [FieldName(base, base + |f|, Seen(p))];
    q := NameTaken(p, log, f, base);
    BlanksTaken(q, next, blank, base + |f + [58]|);
    TakesBoth(p, log, f + [58], base, q, next, blank, q, next);
  }

  lemma BehindSame(p: Parser, q: Parser, r: Parser, m: Meaning)
    requires Behind(q, r, m) && q == p.(state := q.state, headerState := q.headerState, index := q.index)
    ensures Behind(p, r, m) && MeaningOf(q) == MeaningOf(p)
  {
  }

  lemma EffectIs(h: Header, m: Meaning)
    ensures Effect(h, m) == ValueEffect(FieldKind(h.name), h.value, m)
  {
  }

  /** A header line: its name and its value, each in one piece, and what the field means. */
  lemma HeaderTaken(p: Parser, log: seq<Event>, h: Header, base: nat) returns (q: Parser)
    requires AtLineStart(p) && HeaderOk(h)
    ensures Takes(p, log, HeaderWire(h), base, q, log + HeaderCalls(h, Seen(p), base))
    ensures Behind(p, q, Effect(h, MeaningOf(p)))
    ensures q.state == HeaderValueLws ==> KindOf(q) == FoldKind(FieldKind(h.name), h.value)
  {
    hide *;
    LineStartMarks(p);
    HeaderFacts(h);
    HeaderWireIs(h);
    HeaderCallsAre(h, Seen(p), log, base);
    EffectIs(h, MeaningOf(p));
    var next := log + [FieldName(base, base + |h.name|, Seen(p))];
    var r := ToValue(p, log, h.name, h.blank, base);
    KindTold(r.headerState, h.name);
    KindOfIs(r);
    SeenAnywhere(p, r);
    MeaningIs(p);
    MeaningIs(r);
    q := ValueTaken(r, next, FieldKind(h.name), h.value, h.end, base + |h.name + [58] + h.blank|);
    BehindSame(p, r, q, Effect(h, MeaningOf(p)));
    TakesBoth(p, log, h.name + [58] + h.blank, base, r, next, h.value + h.end, q, log + HeaderCalls(h, Seen(p), base));
  }

  // ---- Any number of lines ----------------------------------------------------------------------

  predicate AllHeadersOk(hs: seq<Header>) {
    forall i :: 0 <= i < |hs| ==> HeaderOk(hs[i])
  }

  function HeadersWire(hs: seq<Header>): seq<byte> {
    if hs == [] then [] else HeaderWire(hs[0]) + HeadersWire(hs[1..])
  }

  function EffectAll(hs: seq<Header>, m: Meaning): Meaning
    decreases |hs|
  {
    if hs == [] then m else EffectAll(hs[1..], Effect(hs[0], m))
  }

  /** A parser that has come to know a meaning. */
  function Told(p: Parser, m: Meaning): Parser {
    p.(flags := m.flags, contentLength := m.length)
  }

  /** The calls of each line show what the lines before it mean. */
  function HeadersCalls(p: Parser, hs: seq<Header>, base: nat): seq<Event>
    decreases |hs|
  {
    if hs == [] then []
    else
      HeaderCalls(hs[0], Seen(p), base)
      + HeadersCalls(Told(p, Effect(hs[0], MeaningOf(p))), hs[1..], base + |HeaderWire(hs[0])|)
  }

  /** What handlers may see of two parsers is the same. */
  predicate Alike(p: Parser, q: Parser) {
    && q.major == p.major && q.minor == p.minor && q.verb == p.verb && q.statusCode == p.statusCode
    && q.savedLength == p.savedLength && q.flags == p.flags && q.contentLength == p.contentLength
  }

  lemma {:induction false} HeadersCallsAlike(p: Parser, q: Parser, hs: seq<Header>, base: nat)
    requires Alike(p, q)
    ensures HeadersCalls(q, hs, base) == HeadersCalls(p, hs, base)
    decreases |hs|
  {
    hide Effect;
    hide Seen;
    hide HeaderCalls;
    hide HeaderWire;
    if hs != [] {
      SeenAnywhere(p, q);
      var m := Effect(hs[0], MeaningOf(p));
      HeadersCallsAlike(Told(p, m), Told(q, m), hs[1..], base + |HeaderWire(hs[0])|);
    }
  }

  lemma BehindNone(p: Parser)
    requires AtLineStart(p)
    ensures Behind(p, p, MeaningOf(p))
  {
  }

  lemma BehindFacts(p: Parser, q: Parser, m: Meaning)
    requires Behind(p, q, m)
    ensures AtLineStart(q) && MeaningOf(q) == m && Alike(Told(p, m), q)
  {
  }

  lemma BehindBoth(p: Parser, q: Parser, r: Parser, m: Meaning, n: Meaning)
    requires Behind(p, q, m) && Behind(q, r, n)
    ensures Behind(p, r, n)
  {
  }

  lemma HeadersFirst(p: Parser, hs: seq<Header>, m: Meaning, log: seq<Event>, base: nat)
    requires AllHeadersOk(hs) && hs != []
    ensures HeaderOk(hs[0]) && AllHeadersOk(hs[1..]) && HeadersWire(hs) == HeaderWire(hs[0]) + HeadersWire(hs[1..])
    ensures EffectAll(hs, m) == EffectAll(hs[1..], Effect(hs[0], m))
    ensures log + HeadersCalls(p, hs, base) ==
            log + HeaderCalls(hs[0], Seen(p), base)
            + HeadersCalls(Told(p, Effect(hs[0], MeaningOf(p))), hs[1..], base + |HeaderWire(hs[0])|)
  {
    hide HeaderOk;
    hide HeaderWire;
    hide HeaderCalls;
    hide Effect;
    hide Seen;
  }

  lemma HeadersNone(p: Parser, hs: seq<Header>, m: Meaning, log: seq<Event>, base: nat)
    requires hs == []
    ensures HeadersWire(hs) == [] && EffectAll(hs, m) == m && log + HeadersCalls(p, hs, base) == log
  {
  }

  /** Header lines, one behind the other, come to what their fields mean together. */
  lemma {:induction false} HeadersTaken(p: Parser, log: seq<Event>, hs: seq<Header>, base: nat) returns (q: Parser)
    requires AtLineStart(p) && AllHeadersOk(hs)
    ensures Takes(p, log, HeadersWire(hs), base, q, log + HeadersCalls(p, hs, base))
    ensures Behind(p, q, EffectAll(hs, MeaningOf(p)))
    decreases |hs|
  {
    hide *;
    if hs == [] {
      HeadersNone(p, hs, MeaningOf(p), log, base);
      TakesNone(p, log, base);
      BehindNone(p);
      q := p;
    } else {
      var m, next, at := Effect(hs[0], MeaningOf(p)), log + HeaderCalls(hs[0], Seen(p), base), base + |HeaderWire(hs[0])|;
      HeadersFirst(p, hs, MeaningOf(p), log, base);
      var r := HeaderTaken(p, log, hs[0], base);
      BehindFacts(p, r, m);
      q := HeadersTaken(r, next, hs[1..], at);
      BehindBoth(p, r, q, m, EffectAll(hs[1..], m));
      HeadersCallsAlike(Told(p, m), r, hs[1..], at);
      TakesBoth(p, log, HeaderWire(hs[0]), base, r, next, HeadersWire(hs[1..]), q, log + HeadersCalls(p, hs, base));
    }
  }

  // ---- The empty line ---------------------------------------------------------------------------

  /** The parser at the empty line, before its line feed. */
  function AtEmptyLine(p: Parser): Parser {
    p.(state := HeadersAlmostDone)
  }

  lemma EmptyLineStep(p: Parser, pos: nat)
    requires AtLineStart(p)
    ensures StepByte(p, CR, pos) == Go(AtEmptyLine(p))
  {
  }

  /** The carriage return of the empty line. */
  lemma EmptyLineTaken(p: Parser, log: seq<Event>, base: nat)
    requires AtLineStart(p)
    ensures Takes(p, log, [CR], base, AtEmptyLine(p), log)
  {
    hide *;
    EmptyLineStep(p, base);
    GoIs(AtEmptyLine(p));
    TakesOne(p, log, CR, base);
    EmitNone(log);
  }

  lemma LastByteStep(p: Parser, b: byte, pos: nat)
    requires AtLineStart(p)
    ensures StepByte(AtEmptyLine(p), b, pos) == StepByte(p, LF, pos)
  {
    hide StepHeadersDone;
  }

  lemma LastByteSame(p: Parser, log: seq<Event>, b: byte, data: seq<byte>, base: nat)
    requires AtLineStart(p)
    ensures Process(AtEmptyLine(p), log, [b] + data, base) == Process(p, log, [LF] + data, base)
  {
    hide *;
    LastByteStep(p, b, base);
    ProcessStep(AtEmptyLine(p), log, [b] + data, base);
    ProcessStep(p, log, [LF] + data, base);
    assert ([b] + data)[1..] == ([LF] + data)[1..] == data;
  }

  /** The empty line, with a carriage return or without, is over at its last byte. */
  lemma EmptyLineEnds(p: Parser, log: seq<Event>, end: seq<byte>, data: seq<byte>, base: nat)
    requires AtLineStart(p) && LineEnd(end)
    ensures var n := |end| - 1;
            n >= 0 && Process(p, log, end + data, base) == Later(n, Process(AtEmptyLine(p), log, [LF] + data, base + n))
  {
    hide *;
    LineEndIs(end);
    if end == [LF] {
      LastByteSame(p, log, LF, data, base);
      LaterIs(0, Process(p, log, end + data, base));
    } else {
      EmptyLineTaken(p, log, base);
      TakenFirst(p, log, [CR], base, AtEmptyLine(p), log, [end[1]] + data);
      LastByteSame(p, log, end[1], data, base + 1);
      LastByteSame(p, log, LF, data, base + 1);
      assert end + data == [CR] + ([end[1]] + data);
    }
  }

  // ---- What the lines mean together -------------------------------------------------------------

  /** A line of a field of this kind says a word. */
  predicate SaysWord(h: Header, kind: HeaderState, text: string) {
    FieldKind(h.name) == kind && Says(h.value, text)
  }

  predicate SomeSays(hs: seq<Header>, kind: HeaderState, text: string) {
    exists i :: 0 <= i < |hs| && SaysWord(hs[i], kind, text)
  }

  /** A line asks for an upgrade, whatever to. */
  predicate AsksUpgrade(h: Header) {
    FieldKind(h.name) == Upgrade && h.value != []
  }

  predicate SomeUpgrade(hs: seq<Header>) {
    exists i :: 0 <= i < |hs| && AsksUpgrade(hs[i])
  }

  lemma UpgradeFirst(hs: seq<Header>)
    requires hs != []
    ensures SomeUpgrade(hs) <==> AsksUpgrade(hs[0]) || SomeUpgrade(hs[1..])
  {
    hide AsksUpgrade;
    if i :| 0 <= i < |hs| && AsksUpgrade(hs[i]) {
      if i > 0 { assert hs[1..][i - 1] == hs[i]; }
    }
    if i :| 0 <= i < |hs| - 1 && AsksUpgrade(hs[1..][i]) { assert hs[i + 1] == hs[1..][i]; }
  }

  lemma OneWord(v: seq<byte>)
    ensures !(Says(v, HTTP_KEEP_ALIVE) && Says(v, HTTP_CLOSE))
  {
    if Says(v, HTTP_KEEP_ALIVE) && Says(v, HTTP_CLOSE) {
      SaysFirst(v, KEEP_ALIVE);
      SaysFirst(v, CLOSE);
      assert false;
    }
  }

  lemma EffectSays(h: Header, m: Meaning)
    ensures var n := Effect(h, m);
            && (n.flags.close <==> m.flags.close || SaysWord(h, Connection, HTTP_CLOSE))
            && (n.flags.keepAlive <==> m.flags.keepAlive || SaysWord(h, Connection, HTTP_KEEP_ALIVE))
            && (n.flags.chunked <==> m.flags.chunked || SaysWord(h, TransferEncoding, HTTP_CHUNKED))
            && (n.flags.upgrade <==> m.flags.upgrade || AsksUpgrade(h))
            && n.flags.trailing == m.flags.trailing
            && n.length == (if FieldKind(h.name) == ContentLength && IsNumber(h.value)
                            then HttpLengths.DecimalFrom(0, h.value) else m.length)
  {
    hide Says;
    hide FieldKind;
    OneWord(h.value);
  }

  lemma SomeFirst(hs: seq<Header>, kind: HeaderState, text: string)
    requires hs != []
    ensures SomeSays(hs, kind, text) <==> SaysWord(hs[0], kind, text) || SomeSays(hs[1..], kind, text)
  {
    hide SaysWord;
    if i :| 0 <= i < |hs| && SaysWord(hs[i], kind, text) {
      if i > 0 { assert hs[1..][i - 1] == hs[i]; }
    }
    if i :| 0 <= i < |hs| - 1 && SaysWord(hs[1..][i], kind, text) { assert hs[i + 1] == hs[1..][i]; }
  }

  /** Each flag is set exactly when some line says its word. */
  lemma {:induction false} FlagsSaid(hs: seq<Header>, m: Meaning)
    ensures var n := EffectAll(hs, m);
            && (n.flags.close <==> m.flags.close || SomeSays(hs, Connection, HTTP_CLOSE))
            && (n.flags.keepAlive <==> m.flags.keepAlive || SomeSays(hs, Connection, HTTP_KEEP_ALIVE))
            && (n.flags.chunked <==> m.flags.chunked || SomeSays(hs, TransferEncoding, HTTP_CHUNKED))
            && (n.flags.upgrade <==> m.flags.upgrade || SomeUpgrade(hs))
            && n.flags.trailing == m.flags.trailing
    decreases |hs|
  {
    hide SaysWord;
    hide Effect;
    if hs != [] {
      EffectSays(hs[0], m);
      FlagsSaid(hs[1..], Effect(hs[0], m));
      hide SomeSays;
      hide SomeUpgrade;
      hide AsksUpgrade;
      UpgradeFirst(hs);
      SomeFirst(hs, Connection, HTTP_CLOSE);
      SomeFirst(hs, Connection, HTTP_KEEP_ALIVE);
      SomeFirst(hs, TransferEncoding, HTTP_CHUNKED);
    }
  }

  /** The line of a field that gives a length. */
  predicate GivesLength(h: Header) {
    FieldKind(h.name) == ContentLength && IsNumber(h.value)
  }

  /** The length is the one that the last such line gives. */
  lemma {:induction false} LengthSaid(hs: seq<Header>, m: Meaning, k: nat)
    requires k < |hs| && GivesLength(hs[k]) && forall i :: k < i < |hs| ==> !GivesLength(hs[i])
    ensures EffectAll(hs, m).length == HttpLengths.DecimalFrom(0, hs[k].value)
    decreases |hs|
  {
    hide Effect;
    hide FieldKind;
    hide IsNumber;
    EffectSays(hs[0], m);
    if k == 0 {
      LengthUnsaid(hs[1..], Effect(hs[0], m));
    } else {
      LengthSaid(hs[1..], Effect(hs[0], m), k - 1);
    }
  }

  lemma {:induction false} LengthUnsaid(hs: seq<Header>, m: Meaning)
    requires forall i :: 0 <= i < |hs| ==> !GivesLength(hs[i])
    ensures EffectAll(hs, m).length == m.length
    decreases |hs|
  {
    hide Effect;
    hide FieldKind;
    hide IsNumber;
    if hs != [] {
      EffectSays(hs[0], m);
      LengthUnsaid(hs[1..], Effect(hs[0], m));
    }
  }
}
