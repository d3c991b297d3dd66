/**
 * The recogniser of header names. It follows a name letter by letter, and gives up at the first one
 * that does not fit; at the colon this is the same as comparing the whole name, in lower case and
 * without the spaces behind it, with the names it looks for.
 */
module HttpHeaderNames {
  import opened Common
  import opened HttpTypes
  import opened HttpStep
  import opened HttpRun

  /** The names looked for. */
  function Known(i: nat): string {
    match i
    case 0 => HTTP_CONNECTION
    case 1 => HTTP_PROXY_CONNECTION
    case 2 => HTTP_CONTENT_LENGTH
    case 3 => HTTP_TRANSFER_ENCODING
    case _ => HTTP_UPGRADE
  }

  function Recognised(i: nat): HeaderState {
    match i
    case 0 | 1 => Connection
    case 2 => ContentLength
    case 3 => TransferEncoding
    case _ => Upgrade
  }

  /** The state of the recogniser with n letters of a name read, before its end. */
  function Following(i: nat, n: nat): HeaderState {
    match i
    case 0 => if n == 1 then C else if n == 2 then Co else if n == 3 then Con else MatchingConnection
    case 1 => MatchingProxyConnection
    case 2 => if n == 1 then C else if n == 2 then Co else if n == 3 then Con else MatchingContentLength
    case 3 => MatchingTransferEncoding
    case _ => MatchingUpgrade
  }

  function Trimmed(l: seq<byte>): (t: seq<byte>)
    ensures t <= l
    ensures t != [] ==> t[|t| - 1] != 32
    ensures forall i :: |t| <= i < |l| ==> l[i] == 32
  {
    if l != [] && l[|l| - 1] == 32 then Trimmed(l[..|l| - 1]) else l
  }

  predicate Starts(l: seq<byte>, name: string) {
    |l| <= |name| && forall i :: 0 <= i < |l| ==> l[i] == name[i] as int
  }

  predicate Is(l: seq<byte>, name: string) {
    Starts(l, name) && |l| == |name|
  }

  /** The names are of small letters and hyphens, and none starts another one. */
  lemma KnownLetters(i: nat, k: nat)
    requires i < 5 && k < |Known(i)|
    ensures 45 <= Known(i)[k] as int <= 122
  {
  }

  lemma StartsAt(l: seq<byte>, name: string, k: nat)
    ensures Starts(l, name) && k < |l| ==> l[k] == name[k] as int
  {
  }

  lemma KnownApart(i: nat, j: nat, l: seq<byte>)
    requires i < 5 && j < 5 && i != j && l != [] && Starts(l, Known(i)) && Starts(l, Known(j))
    ensures |l| <= 3 && ((i == 0 && j == 2) || (i == 2 && j == 0))
  {
    StartsAt(l, Known(i), 0);
    StartsAt(l, Known(j), 0);
    StartsAt(l, Known(i), 3);
    StartsAt(l, Known(j), 3);
  }

  lemma KnownShared(l: seq<byte>)
    requires |l| <= 3
    ensures Starts(l, Known(0)) <==> Starts(l, Known(2))
  {
    assert forall k :: 0 <= k < 3 ==> Known(0)[k] == Known(2)[k];
  }

  lemma KnownLong(i: nat)
    ensures 7 <= |Known(i)| <= 17
  {
  }

  // ---- What the recogniser knows of the letters read ---------------------------------------------

  /** More letters could make it the name. */
  predicate Open(l: seq<byte>, i: nat) {
    i < 5 && l != [] && Starts(l, Known(i)) && |l| < |Known(i)|
  }

  /** It is the name. */
  predicate Done(l: seq<byte>, i: nat) {
    i < 5 && Is(Trimmed(l), Known(i))
  }

  /** It is not the start of a name, nor a name. */
  predicate Other(l: seq<byte>) {
    l != [] && forall i :: 0 <= i < 5 ==> !Open(l, i) && !Done(l, i)
  }

  /** The state of the recogniser and its index say which. */
  ghost predicate Tracks(h: HeaderState, index: nat, l: seq<byte>) {
    || (exists i :: Open(l, i) && h == Following(i, |l|) && index == |l| - 1)
    || (exists i :: Done(l, i) && h == Recognised(i))
    || (Other(l) && h == General)
  }

  lemma TrimmedNext(l: seq<byte>, t: byte)
    ensures Trimmed(l + [t]) == if t == 32 then Trimmed(l) else l + [t]
  {
    assert (l + [t])[..|l|] == l;
  }

  lemma StartsNext(l: seq<byte>, t: byte, name: string)
    ensures Starts(l + [t], name) <==> Starts(l, name) && |l| < |name| && t == name[|l|] as int
  {
    if Starts(l + [t], name) {
      assert forall k :: 0 <= k < |l| ==> (l + [t])[k] == l[k];
      assert (l + [t])[|l|] == t;
    }
  }

  lemma OpenTrimmed(l: seq<byte>, i: nat)
    requires Open(l, i)
    ensures Trimmed(l) == l
  {
    hide Known;
    KnownLetters(i, |l| - 1);
    assert l[|l| - 1] == Known(i)[|l| - 1] as int;
  }

  /** The start of one name is no other name. */
  lemma OpenNotDone(l: seq<byte>, i: nat, j: nat)
    requires Open(l, i)
    ensures !Done(l, j)
  {
    hide Known;
    hide Trimmed;
    OpenTrimmed(l, i);
    KnownLong(j);
    if Done(l, j) && i != j { KnownApart(i, j, l); }
  }

  /** The letter a name goes on with. */
  lemma OpenFits(l: seq<byte>, i: nat, t: byte)
    requires Open(l, i) && t == Known(i)[|l|] as int
    ensures if |l| + 1 == |Known(i)| then Done(l + [t], i) else Open(l + [t], i)
  {
    hide Known;
    KnownLetters(i, |l|);
    TrimmedNext(l, t);
    StartsNext(l, t, Known(i));
  }

  /** Any other letter, unless it is the one that tells the two names apart that start the same way. */
  lemma OpenBreaks(l: seq<byte>, i: nat, t: byte)
    requires Open(l, i) && t != Known(i)[|l|] as int
    requires |l| == 3 && (i == 0 || i == 2) ==> t != Known(2 - i)[3] as int
    ensures Other(l + [t])
  {
    hide Known;
    hide Trimmed;
    TrimmedNext(l, t);
    OpenTrimmed(l, i);
    forall j | 0 <= j < 5 ensures !Open(l + [t], j) && !Done(l + [t], j) {
      OpenNotDone(l, i, j);
      StartsNext(l, t, Known(j));
      if Starts(l + [t], Known(j)) {
        KnownLong(j);
        if i != j {
          KnownApart(i, j, l);
          if |l| < 3 { SharedLetter(|l|); }
        }
      }
    }
  }

  lemma SharedLetter(k: nat)
    requires k < 3
    ensures Known(0)[k] == Known(2)[k]
  {
  }

  lemma DoneNext(l: seq<byte>, i: nat, t: byte)
    requires Done(l, i)
    ensures if t == 32 then Done(l + [t], i) else Other(l + [t])
  {
    hide Known;
    TrimmedNext(l, t);
    KnownLong(i);
    if t != 32 {
      var name := Trimmed(l);
      forall j | 0 <= j < 5 ensures !Starts(l + [t], Known(j)) {
        if Starts(l + [t], Known(j)) {
          assert forall k :: 0 <= k < |name| ==> name[k] == (l + [t])[k];
          if i != j { KnownApart(i, j, name); }
        }
      }
    }
  }

  lemma OtherNext(l: seq<byte>, t: byte)
    requires Other(l)
    ensures Other(l + [t])
  {
    hide Known;
    TrimmedNext(l, t);
    forall j | 0 <= j < 5 ensures !Open(l + [t], j) && !Done(l + [t], j) {
      StartsNext(l, t, Known(j));
      assert !Open(l, j) && !Done(l, j);
    }
  }

  // ---- One more byte ----------------------------------------------------------------------------

  /** Following a name: a letter that fits goes on with it, and any other breaks it off. */
  lemma FollowingStep(i: nat, l: seq<byte>, b: byte, t: byte)
    requires Open(l, i) && t == Token(b)
    ensures var (h, index) := NextHeader(Following(i, |l|), |l| - 1, b, t);
            if t == Known(i)[|l|] as int
            then h == (if |l| + 1 == |Known(i)| then Recognised(i) else Following(i, |l| + 1)) && index == |l|
            else if |l| == 3 && (i == 0 || i == 2) && t == Known(2 - i)[3] as int
            then h == Following(2 - i, 4) && index == 3
            else h == General
  {
    hide Token;
  }

  lemma RecognisedStep(i: nat, index: nat, b: byte)
    ensures NextHeader(Recognised(i), index, b, Token(b)).0 == if b == 32 then Recognised(i) else General
  {
    hide Token;
  }

  lemma TokenSpace(b: byte)
    ensures Token(b) == 32 <==> b == 32
  {
  }

  lemma SecondThought(l: seq<byte>, i: nat, t: byte)
    requires Open(l, i) && |l| == 3 && (i == 0 || i == 2) && t == Known(2 - i)[3] as int
    ensures Open(l + [t], 2 - i)
  {
    hide Known;
    KnownShared(l);
    KnownLong(2 - i);
    StartsNext(l, t, Known(2 - i));
  }

  /** Every character of a name keeps track of it. */
  lemma TrackNext(h: HeaderState, index: nat, l: seq<byte>, b: byte)
    requires Tracks(h, index, l) && Token(b) != 0
    ensures var (h', index') := NextHeader(h, index, b, Token(b));
            Tracks(h', index', l + [Token(b)])
  {
    hide Known;
    hide Open;
    hide Done;
    hide Other;
    hide Token;
    hide NextHeader;
    hide Following;
    hide Recognised;
    var t := Token(b);
    if i: nat :| Open(l, i) && h == Following(i, |l|) && index == |l| - 1 {
      OpenFacts(l, i);
      FollowingStep(i, l, b, t);
      if t == Known(i)[|l|] as int {
        OpenFits(l, i, t);
      } else if |l| == 3 && (i == 0 || i == 2) && t == Known(2 - i)[3] as int {
        SecondThought(l, i, t);
      } else {
        OpenBreaks(l, i, t);
      }
    } else if i: nat :| Done(l, i) && h == Recognised(i) {
      TokenSpace(b);
      RecognisedStep(i, index, b);
      DoneNext(l, i, t);
    } else {
      OtherNext(l, t);
      GeneralStep(index, b);
    }
  }

  lemma OpenFacts(l: seq<byte>, i: nat)
    requires Open(l, i)
    ensures i < 5 && l != [] && |l| < |Known(i)| && 7 <= |Known(0)| && 7 <= |Known(2)|
  {
  }

  lemma GeneralStep(index: nat, b: byte)
    ensures NextHeader(General, index, b, Token(b)).0 == General
  {
    hide Token;
  }

  /** The first character. */
  lemma TrackFirst(b: byte)
    requires Token(b) != 0
    ensures Tracks(FirstHeader(Token(b)), 0, [Token(b)])
  {
    hide Token;
    hide Trimmed;
    hide Known;
    var t := Token(b);
    var l := [t];
    TrimmedNext([], t);
    assert [] + [t] == l;
    KnownFirst();
    forall i | 0 <= i < 5 ensures Open(l, i) <==> t == Known(i)[0] as int {
      KnownLong(i);
      assert Open(l, i) <==> l[0] == Known(i)[0] as int;
    }
    forall i | 0 <= i < 5 ensures !Done(l, i) { KnownLong(i); }
    if i: nat :| 0 <= i < 5 && Open(l, i) {
      assert FirstHeader(t) == Following(i, 1);
    } else {
      assert Other(l);
    }
  }

  lemma KnownFirst()
    ensures Known(0) != "" && Known(0)[0] == 'c' && Known(1) != "" && Known(1)[0] == 'p'
    ensures Known(2) != "" && Known(2)[0] == 'c' && Known(3) != "" && Known(3)[0] == 't'
    ensures Known(4) != "" && Known(4)[0] == 'u'
  {
  }

  // ---- The whole name ---------------------------------------------------------------------------

  /** A name as it is compared: letters in lower case. */
  function Lowered(f: seq<byte>): (l: seq<byte>)
    ensures |l| == |f|
  {
    seq(|f|, i requires 0 <= i < |f| => Token(f[i]))
  }

  predicate NameChars(f: seq<byte>) {
    forall i :: 0 <= i < |f| ==> Token(f[i]) != 0
  }

  lemma FieldStep(p: Parser, b: byte, pos: nat)
    requires p.state == HeaderField
    ensures StepByte(p, b, pos) == StepField(p, b, pos)
  {
  }

  lemma FieldEnd(p: Parser, pos: nat, mark: nat)
    requires p.state == HeaderField && p.fieldMark == Some(mark)
    ensures var s := StepByte(p, 58, pos);
            && s.status == Reading && s.p == p.(fieldMark := None, state := HeaderValueStart)
            && s.events == [FieldName(mark, pos, Seen(p))]
  {
    FieldStep(p, 58, pos);
  }

  lemma FieldFirst(p: Parser, b: byte, pos: nat)
    requires p.state == HeaderFieldStart && Token(b) != 0
    ensures StepByte(p, b, pos) ==
            Go(p.(fieldMark := Some(pos), index := 0, state := HeaderField, headerState := FirstHeader(Token(b))))
  {
  }

  /** The rest of a name of which k characters were read, and the colon. */
  lemma {:induction false} FieldRun(p: Parser, log: seq<Event>, f: seq<byte>, k: nat, mark: nat, base: nat)
    requires NameChars(f) && 1 <= k <= |f| && p.state == HeaderField && p.fieldMark == Some(mark)
    requires Tracks(p.headerState, p.index, Lowered(f)[..k])
    ensures var c := Process(p, log, f[k..] + [58], base);
            && c.status == Reading && c.p.state == HeaderValueStart
            && c.log == Emit(log, FieldName(mark, base + |f| - k, Seen(p)))
            && Tracks(c.p.headerState, c.p.index, Lowered(f))
            && c.p == p.(fieldMark := None, state := HeaderValueStart, headerState := c.p.headerState, index := c.p.index)
    decreases |f| - k
  {
    hide StepByte;
    hide Process;
    hide Tracks;
    hide Token;
    hide NextHeader;
    hide Emit;
    hide EmitAll;
    hide ShouldKeepAlive;
    var data := f[k..] + [58];
    ProcessStep(p, log, data, base);
    if k == |f| {
      FieldEnd(p, base, mark);
      EmitOne(log, FieldName(mark, base, Seen(p)));
      assert data[1..] == [] && Lowered(f)[..k] == Lowered(f);
      ProcessNone(p.(fieldMark := None, state := HeaderValueStart), Emit(log, FieldName(mark, base, Seen(p))), base + 1);
    } else {
      FieldStep(p, f[k], base);
      EmitNone(log);
      TrackNext(p.headerState, p.index, Lowered(f)[..k], f[k]);
      assert Lowered(f)[..k + 1] == Lowered(f)[..k] + [Token(f[k])];
      assert data[1..] == f[k + 1..] + [58];
      var (h, index) := NextHeader(p.headerState, p.index, f[k], Token(f[k]));
      SeenSame(p, p.(headerState := h, index := index));
      FieldRun(p.(headerState := h, index := index), log, f, k + 1, mark, base + 1);
    }
  }

  /** What handlers see of a message does not depend on where in a name the parser is. */
  lemma SeenSame(p: Parser, q: Parser)
    requires q.(state := p.state, fieldMark := p.fieldMark, index := p.index, headerState := p.headerState) == p
    ensures Seen(q) == Seen(p)
  {
  }

  /** What keeping track of a name comes to at its end. */
  lemma TrackedName(h: HeaderState, index: nat, l: seq<byte>)
    requires Tracks(h, index, l)
    ensures h == Connection <==> Done(l, 0) || Done(l, 1)
    ensures h == ContentLength <==> Done(l, 2)
    ensures h == TransferEncoding <==> Done(l, 3)
    ensures h == Upgrade <==> Done(l, 4)
  {
    hide Known;
    hide Open;
    hide Done;
    hide Trimmed;
    if i: nat :| Open(l, i) && h == Following(i, |l|) && index == |l| - 1 {
      forall j | 0 <= j < 5 ensures !Done(l, j) { OpenNotDone(l, i, j); }
    } else if i: nat :| Done(l, i) && h == Recognised(i) {
      forall j: nat | Done(l, j) ensures j == i { DoneOnce(l, i, j); }
      DoneRange(l, i);
    }
  }

  lemma DoneRange(l: seq<byte>, i: nat)
    requires Done(l, i)
    ensures i < 5
  {
  }

  lemma DoneOnce(l: seq<byte>, i: nat, j: nat)
    requires Done(l, i) && Done(l, j)
    ensures i == j
  {
    hide Known;
    KnownLong(i);
    if i != j { KnownApart(i, j, Trimmed(l)); }
  }

  lemma DoneIs(l: seq<byte>)
    ensures Done(l, 0) <==> Is(Trimmed(l), HTTP_CONNECTION)
    ensures Done(l, 1) <==> Is(Trimmed(l), HTTP_PROXY_CONNECTION)
    ensures Done(l, 2) <==> Is(Trimmed(l), HTTP_CONTENT_LENGTH)
    ensures Done(l, 3) <==> Is(Trimmed(l), HTTP_TRANSFER_ENCODING)
    ensures Done(l, 4) <==> Is(Trimmed(l), HTTP_UPGRADE)
  {
    hide Is;
    hide Trimmed;
  }

  /** The parser with the first character of a name read. */
  function Named(p: Parser, b: byte, pos: nat): Parser {
    p.(fieldMark := Some(pos), index := 0, state := HeaderField, headerState := FirstHeader(Token(b)))
  }

  lemma NameStarts(p: Parser, log: seq<Event>, f: seq<byte>, base: nat)
    requires p.state == HeaderFieldStart && f != [] && NameChars(f)
    ensures Process(p, log, f + [58], base) == Later(1, Process(Named(p, f[0], base), log, f[1..] + [58], base + 1))
  {
    hide StepByte;
    hide Process;
    hide EmitAll;
    var data := f + [58];
    ProcessStep(p, log, data, base);
    FieldFirst(p, f[0], base);
    EmitNone(log);
    assert data[1..] == f[1..] + [58];
  }

  /**
   * A field name and its colon: the handler gets the whole name once, and the header is taken for
   * one of the known ones exactly when its name is that one.
   */
  lemma NameRecognised(p: Parser, log: seq<Event>, f: seq<byte>, base: nat)
    requires p.state == HeaderFieldStart && f != [] && NameChars(f)
    ensures var c, name := Process(p, log, f + [58], base), Trimmed(Lowered(f));
            && c.status == Reading && c.p.state == HeaderValueStart
            && c.log == Emit(log, FieldName(base, base + |f|, Seen(p)))
            && c.p == p.(fieldMark := None, state := HeaderValueStart, headerState := c.p.headerState, index := c.p.index)
            && (c.p.headerState == Connection <==> Is(name, HTTP_CONNECTION) || Is(name, HTTP_PROXY_CONNECTION))
            && (c.p.headerState == ContentLength <==> Is(name, HTTP_CONTENT_LENGTH))
            && (c.p.headerState == TransferEncoding <==> Is(name, HTTP_TRANSFER_ENCODING))
            && (c.p.headerState == Upgrade <==> Is(name, HTTP_UPGRADE))
  {
    hide Process;
    hide Tracks;
    hide Token;
    hide Emit;
    hide FirstHeader;
    hide Trimmed;
    hide Is;
    hide Done;
    hide Seen;
    NameStarts(p, log, f, base);
    TrackFirst(f[0]);
    assert Lowered(f)[..1] == [Token(f[0])];
    var q := Named(p, f[0], base);
    SeenSame(p, q);
    FieldRun(q, log, f, 1, base, base + 1);
    var c := Process(q, log, f[1..] + [58], base + 1);
    TrackedName(c.p.headerState, c.p.index, Lowered(f));
    DoneIs(Lowered(f));
  }
}
