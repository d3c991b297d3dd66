/**
 * The recogniser of method names. It keeps one candidate and moves from it to another one at a few
 * letters, which is the same as comparing the whole token with each of the names.
 */
module HttpMethods {
  import opened Common
  import opened HttpTypes
  import opened HttpStep
  import opened HttpRun

  predicate Names(t: seq<byte>, m: nat) {
    1 <= m <= 24 && t == Ascii(MethodName(m))
  }

  /** The candidate after the first k letters of a name: the names it shares them with go first. */
  function Candidate(m: nat, k: nat): nat {
    match m
    case 18 => if k < 2 then CONNECT else 18
    case 9 => if k < 3 then CONNECT else 9
    case 12 => if k < 2 then MKCOL else 12
    case 19 => if k < 2 then MKCOL else 19
    case 20 => if k < 2 then MKCOL else 20
    case 17 => if k < 3 then MKCOL else 17
    case 13 => if k < 2 then POST else 13
    case 5 => if k < 2 then POST else 5
    case 24 => if k < 2 then POST else 24
    case 14 => if k < 2 then POST else if k < 5 then PROPFIND else 14
    case 23 => if k < 3 then UNLOCK else 23
    case _ => m
  }

  function Letter(m: nat, k: nat): byte {
    var c := CharAt(MethodName(m), k);
    if c < 256 then c else 0
  }

  /** Names are of letters, and one hyphen. */
  lemma LetterRange(m: nat, k: nat)
    requires k < |MethodName(m)|
    ensures 45 <= Letter(m, k) <= 90 && Letter(m, k) == MethodName(m)[k] as int
  {
  }

  /** A candidate that stays has the letter in common with the name. */
  lemma SharedLetter(m: nat, k: nat)
    requires 1 <= m <= 24 && 1 <= k < |MethodName(m)| && Candidate(m, k) == Candidate(m, k + 1)
    ensures CharAt(MethodName(Candidate(m, k)), k) == Letter(m, k)
  {
  }

  /** A candidate that goes does so at one of the letters the recogniser looks for. */
  lemma SwitchedLetter(m: nat, k: nat)
    requires 1 <= m <= 24 && 1 <= k < |MethodName(m)| && Candidate(m, k) != Candidate(m, k + 1)
    ensures NextMethod(Candidate(m, k), k, Letter(m, k)) == Some(Candidate(m, k + 1))
  {
  }

  /** The letters of a name lead from candidate to candidate. */
  lemma CandidateStep(m: nat, k: nat)
    requires 1 <= m <= 24 && 1 <= k < |MethodName(m)|
    ensures NextMethod(Candidate(m, k), k, Letter(m, k)) == Some(Candidate(m, k + 1))
  {
    hide MethodName;
    hide Candidate;
    if Candidate(m, k) == Candidate(m, k + 1) { SharedLetter(m, k); } else { SwitchedLetter(m, k); }
  }

  lemma CandidateEnds(m: nat)
    requires 1 <= m <= 24
    ensures 3 <= |MethodName(m)| && Candidate(m, |MethodName(m)|) == m
    ensures FirstMethod(Letter(m, 0)) == Candidate(m, 1)
    ensures IsAlpha(Letter(m, 0))
  {
  }

  // ---- Accepting the names ----------------------------------------------------------------------

  lemma MethodStep(p: Parser, b: byte, pos: nat)
    requires p.state == ReqMethod
    ensures StepByte(p, b, pos) == StepMethod(p, b)
  {
  }

  lemma NameEnds(m: nat)
    ensures CharAt(MethodName(m), |MethodName(m)|) == 0
  {
  }

  /** What is left of a name, and the space behind it, is accepted with that method set. */
  lemma {:induction false} NameAccepted(p: Parser, log: seq<Event>, m: nat, k: nat, base: nat)
    requires 1 <= m <= 24 && 1 <= k <= |MethodName(m)|
    requires p.state == ReqMethod && p.verb == Candidate(m, k) && p.index == k
    ensures Process(p, log, Ascii(MethodName(m))[k..] + [32], base) ==
            Call(p.(verb := m, index := |MethodName(m)| + 1, state := ReqSpacesBeforeUrl), log, |MethodName(m)| - k + 1, Reading)
    decreases |MethodName(m)| - k
  {
    hide MethodName;
    hide NextMethod;
    hide Candidate;
    hide StepByte;
    hide Process;
    var data := Ascii(MethodName(m))[k..] + [32];
    ProcessStep(p, log, data, base);
    MethodStep(p, data[0], base);
    CandidateEnds(m);
    EmitNone(log);
    if k == |MethodName(m)| {
      NameEnds(m);
      assert data[1..] == [];
      ProcessNone(p.(index := k + 1, state := ReqSpacesBeforeUrl), log, base + 1);
    } else {
      LetterRange(m, k);
      CandidateStep(m, k);
      assert data[0] == Letter(m, k) && data[1..] == Ascii(MethodName(m))[k + 1..] + [32];
      NameAccepted(p.(verb := Candidate(m, k + 1), index := k + 1), log, m, k + 1, base + 1);
    }
  }

  // ---- Refusing everything else -----------------------------------------------------------------

  /** Any candidate the recogniser moves to has read the same letters. */
  lemma CandidateReads(m: nat, k: nat, b: byte)
    requires 1 <= m <= 24 && 1 <= k <= |MethodName(m)| && b != 0 && NextMethod(m, k, b).Some?
    ensures var n := NextMethod(m, k, b).value;
            && 1 <= n <= 24 && k < |MethodName(n)| && CharAt(MethodName(n), k) == b
            && MethodName(n)[..k] == MethodName(m)[..k]
  {
  }

  lemma SpaceEnds(m: nat, k: nat)
    requires 1 <= m <= 24 && 1 <= k <= |MethodName(m)|
    ensures NextMethod(m, k, 32) == None
    ensures CharAt(MethodName(m), k) == 0 <==> k == |MethodName(m)|
  {
  }

  /** The candidate has read the first k bytes of the token. */
  predicate HasRead(m: nat, k: nat, t: seq<byte>) {
    1 <= m <= 24 && 1 <= k <= |MethodName(m)| && k <= |t| && forall i :: 0 <= i < k ==> CharAt(MethodName(m), i) == t[i]
  }

  lemma ReadsOne(m: nat, k: nat, t: seq<byte>)
    requires HasRead(m, k, t) && k < |t| && t[k] != 0 && NextMethod(m, k, t[k]).Some?
    ensures HasRead(NextMethod(m, k, t[k]).value, k + 1, t)
  {
    hide MethodName;
    hide NextMethod;
    var n := NextMethod(m, k, t[k]).value;
    CandidateReads(m, k, t[k]);
    forall i | 0 <= i < k ensures CharAt(MethodName(n), i) == t[i] {
      assert MethodName(n)[..k][i] == MethodName(m)[..k][i];
    }
  }

  lemma ReadsAll(m: nat, t: seq<byte>)
    requires HasRead(m, |t|, t) && |t| == |MethodName(m)|
    ensures Names(t, m)
  {
    hide MethodName;
    forall i | 0 <= i < |t| ensures Ascii(MethodName(m))[i] == t[i] {
      LetterRange(m, i);
    }
  }

  /** The rest of a token whose first k bytes were read, and a space: only a name is accepted. */
  lemma {:induction false} OthersRefused(p: Parser, log: seq<Event>, t: seq<byte>, k: nat, base: nat)
    requires p.state == ReqMethod && p.index == k && HasRead(p.verb, k, t)
    requires forall i :: 0 <= i < |t| ==> t[i] != 32
    ensures var c := Process(p, log, t[k..] + [32], base);
            if c.status == Reading then c.p.state == ReqSpacesBeforeUrl && Names(t, c.p.verb) else c.status == Failed
    decreases |t| - k
  {
    hide MethodName;
    hide NextMethod;
    hide StepByte;
    hide Process;
    hide HasRead;
    hide Names;
    ReadBounds(p.verb, k, t);
    var data := t[k..] + [32];
    ProcessStep(p, log, data, base);
    MethodStep(p, data[0], base);
    SpaceEnds(p.verb, k);
    EmitNone(log);
    if k == |t| {
      assert data[1..] == [];
      ProcessNone(p.(index := k + 1, state := ReqSpacesBeforeUrl), log, base + 1);
      if CharAt(MethodName(p.verb), k) == 0 { ReadsAll(p.verb, t); }
    } else {
      assert data[0] == t[k] && data[1..] == t[k + 1..] + [32];
      if t[k] != 0 && NextMethod(p.verb, k, t[k]).Some? {
        ReadsOne(p.verb, k, t);
        OthersRefused(p.(verb := NextMethod(p.verb, k, t[k]).value, index := k + 1), log, t, k + 1, base + 1);
      }
    }
  }

  lemma ReadBounds(m: nat, k: nat, t: seq<byte>)
    requires HasRead(m, k, t)
    ensures 1 <= m <= 24 && 1 <= k <= |MethodName(m)| && k <= |t|
  {
  }

  // ---- The whole recogniser ---------------------------------------------------------------------

  lemma FirstStep(p: Parser, b: byte, pos: nat)
    requires p.state == StartReq && b != CR && b != LF
    ensures var s, m := StepByte(p, b, pos), if IsAlpha(b) then FirstMethod(b) else 0;
            if m == 0 then s.status == Failed
            else s.status == Reading && s.p.state == ReqMethod && s.p.verb == m && s.p.index == 1
  {
  }

  lemma FirstReads(b: byte, t: seq<byte>)
    requires |t| > 0 && t[0] == b && FirstMethod(b) != 0
    ensures HasRead(FirstMethod(b), 1, t)
  {
  }

  lemma NameFromStart(p: Parser, log: seq<Event>, t: seq<byte>, m: nat, base: nat)
    requires p.state == StartReq && Names(t, m)
    ensures t != [] && Process(p, log, t + [32], base).status == Reading
  {
    hide MethodName;
    hide StepByte;
    hide Process;
    hide FirstMethod;
    hide EmitAll;
    hide IsAlpha;
    CandidateEnds(m);
    LetterRange(m, 0);
    var data := t + [32];
    assert data[0] == Letter(m, 0) && data[1..] == t[1..] + [32];
    var s := StepByte(p, data[0], base);
    ProcessStep(p, log, data, base);
    FirstStep(p, data[0], base);
    NameAccepted(s.p, EmitAll(log, s.events), m, 1, base + 1);
  }

  /**
   * A token at the start of a request and the space behind it are accepted exactly when the token is
   * one of the names, with the method of that name set. Anything else is an error.
   */
  lemma MethodAccepted(p: Parser, log: seq<Event>, t: seq<byte>, base: nat)
    requires p.state == StartReq && forall i :: 0 <= i < |t| ==> t[i] != 32
    requires t != [] ==> t[0] != CR && t[0] != LF
    ensures var c := Process(p, log, t + [32], base);
            && (c.status == Reading <==> exists m :: Names(t, m))
            && (c.status == Reading ==> c.p.state == ReqSpacesBeforeUrl && Names(t, c.p.verb))
            && (c.status != Reading ==> c.status == Failed)
  {
    hide MethodName;
    hide StepByte;
    hide Process;
    hide HasRead;
    hide FirstMethod;
    hide EmitAll;
    var data := t + [32];
    var s := StepByte(p, data[0], base);
    ProcessStep(p, log, data, base);
    FirstStep(p, data[0], base);
    if t != [] {
      assert data[1..] == t[1..] + [32];
      if s.status == Reading {
        FirstReads(t[0], t);
        OthersRefused(s.p, EmitAll(log, s.events), t, 1, base + 1);
      }
      forall m | Names(t, m) ensures Process(p, log, data, base).status == Reading {
        NameFromStart(p, log, t, m, base);
      }
    } else {
      forall m ensures !Names(t, m) { if Names(t, m) { CandidateEnds(m); } }
    }
  }
}
