/**
 * The recogniser of header values. Three words mean something: chunked, keep-alive and close, in letters
 * of either case and with any spaces behind them. Following a word letter by letter comes to comparing
 * the whole value with it.
 */
module HttpHeaderValues {
  import opened Common
  import opened HttpTypes
  import opened HttpStep
  import opened HttpRun
  import opened HttpHeaderNames

  /** A word, and the states of the recogniser within it and behind it. */
  datatype Word = Word(text: string, matching: HeaderState, matched: HeaderState)

  const CHUNKED := Word(HTTP_CHUNKED, MatchingChunked, ValueChunked)
  const KEEP_ALIVE := Word(HTTP_KEEP_ALIVE, MatchingKeepAlive, ValueKeepAlive)
  const CLOSE := Word(HTTP_CLOSE, MatchingClose, ValueClose)

  predicate IsWord(w: Word) {
    w == CHUNKED || w == KEEP_ALIVE || w == CLOSE
  }

  function Smaller(v: seq<byte>): (l: seq<byte>)
    ensures |l| == |v|
  {
    seq(|v|, i requires 0 <= i < |v| => Lower(v[i]))
  }

  /** The value is the word. */
  predicate Says(v: seq<byte>, text: string) {
    Is(Smaller(Trimmed(v)), text)
  }

  /** More letters could make it the word. */
  predicate Begins(v: seq<byte>, text: string) {
    v != [] && |v| < |text| && Starts(Smaller(v), text)
  }

  /** The state of the recogniser and its index say which. */
  predicate Follows(h: HeaderState, index: nat, v: seq<byte>, w: Word) {
    if Says(v, w.text) then h == w.matched
    else if Begins(v, w.text) then h == w.matching && index == |v| - 1
    else h == General
  }

  // ---- One more byte ----------------------------------------------------------------------------

  lemma WordFacts(w: Word)
    requires IsWord(w)
    ensures 5 <= |w.text| <= 10 && forall k :: 0 <= k < |w.text| ==> 45 <= w.text[k] as int <= 122
    ensures w.matching != General && w.matched != General && w.matching != w.matched
  {
  }

  lemma SmallerNext(v: seq<byte>, b: byte)
    ensures Smaller(v + [b]) == Smaller(v) + [Lower(b)]
  {
  }

  lemma LowerSpace(b: byte)
    ensures b == 32 ==> Lower(b) == 32
  {
  }

  /** A value that begins a word has no space behind it. */
  lemma BeginsTrimmed(v: seq<byte>, w: Word)
    requires IsWord(w) && Begins(v, w.text)
    ensures Trimmed(v) == v && !Says(v, w.text)
  {
    hide Lower;
    WordFacts(w);
    LowerSpace(v[|v| - 1]);
    assert Smaller(v)[|v| - 1] == w.text[|v| - 1] as int;
  }

  lemma BeginsNext(v: seq<byte>, b: byte, w: Word)
    requires IsWord(w) && Begins(v, w.text)
    ensures if Lower(b) != w.text[|v|] as int then !Says(v + [b], w.text) && !Begins(v + [b], w.text)
            else if |v| + 1 == |w.text| then Says(v + [b], w.text)
            else Begins(v + [b], w.text) && !Says(v + [b], w.text)
  {
    hide Lower;
    hide Starts;
    hide Trimmed;
    WordFacts(w);
    LowerSpace(b);
    TrimmedNext(v, b);
    SmallerNext(v, b);
    BeginsTrimmed(v, w);
    StartsNext(Smaller(v), Lower(b), w.text);
  }

  lemma SaysNext(v: seq<byte>, b: byte, w: Word)
    requires IsWord(w) && Says(v, w.text)
    ensures if b == 32 then Says(v + [b], w.text) else !Says(v + [b], w.text) && !Begins(v + [b], w.text)
  {
    hide Lower;
    TrimmedNext(v, b);
  }

  lemma OtherwiseNext(v: seq<byte>, b: byte, w: Word)
    requires IsWord(w) && v != [] && !Says(v, w.text) && !Begins(v, w.text)
    ensures !Says(v + [b], w.text) && !Begins(v + [b], w.text)
  {
    hide Lower;
    hide Starts;
    hide Trimmed;
    TrimmedNext(v, b);
    SmallerNext(v, b);
    StartsNext(Smaller(v), Lower(b), w.text);
  }

  /** What the recogniser does at a byte. */
  lemma NextInWord(w: Word, index: nat, b: byte)
    requires IsWord(w)
    ensures NextValue(w.matching, index, b) ==
            (MatchName(w.text, index + 1, Lower(b), w.matching, w.matched), index + 1)
    ensures NextValue(w.matched, index, b) == (if b != 32 then General else w.matched, index)
    ensures NextValue(General, index, b) == (General, index)
  {
    hide Lower;
  }

  lemma MatchNameIs(w: Word, k: nat, t: byte)
    requires IsWord(w) && k < |w.text|
    ensures MatchName(w.text, k, t, w.matching, w.matched) ==
            if t != w.text[k] as int then General else if k == |w.text| - 1 then w.matched else w.matching
  {
  }

  /** Every byte of a value keeps the recogniser in step with the word. */
  lemma FollowNext(h: HeaderState, index: nat, v: seq<byte>, b: byte, w: Word)
    requires IsWord(w) && v != [] && Follows(h, index, v, w)
    ensures var (h', index') := NextValue(h, index, b);
            Follows(h', index', v + [b], w)
  {
    hide NextValue;
    hide MatchName;
    hide Says;
    hide Begins;
    hide Lower;
    WordFacts(w);
    NextInWord(w, index, b);
    if Says(v, w.text) {
      SaysNext(v, b, w);
    } else if Begins(v, w.text) {
      BeginsNext(v, b, w);
      BeginsShorter(v, w);
      MatchNameIs(w, |v|, Lower(b));
    } else {
      OtherwiseNext(v, b, w);
    }
  }

  lemma BeginsShorter(v: seq<byte>, w: Word)
    requires Begins(v, w.text)
    ensures v != [] && |v| < |w.text|
  {
  }

  /** The first byte of a value begins a word or it does not. */
  lemma FollowFirst(b: byte, w: Word)
    requires IsWord(w) && b != 32
    ensures Follows(if Lower(b) == w.text[0] as int then w.matching else General, 0, [b], w)
  {
    hide Lower;
    WordFacts(w);
    assert Trimmed([b]) == [b];
    assert Smaller([b]) == [Lower(b)];
  }

  /** A value that does not start with the first letter of a word does not say it. */
  lemma SaysFirst(v: seq<byte>, w: Word)
    requires IsWord(w) && Says(v, w.text)
    ensures v != [] && Lower(v[0]) == w.text[0] as int
  {
    WordFacts(w);
    assert Smaller(Trimmed(v))[0] == w.text[0] as int;
  }

  // ---- A value behind its first byte ------------------------------------------------------------

  predicate NoLineEnd(v: seq<byte>) {
    forall i :: 0 <= i < |v| ==> v[i] != CR && v[i] != LF
  }

  lemma ValueStep(p: Parser, b: byte, pos: nat)
    requires p.state == HeaderValue && p.headerState != ContentLength && b != CR && b != LF
    ensures var (h, index) := NextValue(p.headerState, p.index, b);
            StepByte(p, b, pos) == Go(p.(headerState := h, index := index))
  {
    hide NextValue;
  }

  lemma FollowsNoLength(h: HeaderState, index: nat, v: seq<byte>, w: Word)
    requires IsWord(w) && Follows(h, index, v, w)
    ensures h != ContentLength
  {
    hide Says;
    hide Begins;
  }

  lemma NoLineEndAt(v: seq<byte>, k: nat)
    requires NoLineEnd(v) && k < |v|
    ensures v[k] != CR && v[k] != LF && v[..k + 1] == v[..k] + [v[k]] && v[k..] == [v[k]] + v[k + 1..]
  {
  }

  /** The rest of a value of which k bytes were read. */
  lemma {:induction false} WordRun(p: Parser, log: seq<Event>, v: seq<byte>, k: nat, w: Word, base: nat)
    returns (h: HeaderState, index: nat)
    requires IsWord(w) && NoLineEnd(v) && 1 <= k <= |v| && p.state == HeaderValue
    requires Follows(p.headerState, p.index, v[..k], w)
    ensures Takes(p, log, v[k..], base, p.(headerState := h, index := index), log)
    ensures Follows(h, index, v, w)
    decreases |v| - k
  {
    hide *;
    if k == |v| {
      TakesNone(p, log, base);
      assert v[..k] == v && v[k..] == [];
      h, index := p.headerState, p.index;
    } else {
      NoLineEndAt(v, k);
      FollowsNoLength(p.headerState, p.index, v[..k], w);
      FollowNext(p.headerState, p.index, v[..k], v[k], w);
      ValueStep(p, v[k], base);
      var (h', index') := NextValue(p.headerState, p.index, v[k]);
      var q := p.(headerState := h', index := index');
      GoIs(q);
      TakesOne(p, log, v[k], base);
      EmitNone(log);
      h, index := WordRun(q, log, v, k + 1, w, base + 1);
      TakesBoth(p, log, [v[k]], base, q, log, v[k + 1..], q.(headerState := h, index := index), log);
    }
  }

}
