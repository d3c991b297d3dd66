/**
 * The target of a request (section 3.2 of RFC 9112) through the HTTP/1.1 parser, in its four forms: origin,
 * absolute, authority and asterisk. What is accepted is exactly what has one of these forms, as far as the
 * source looks at them.
 */
module HttpTargets {
  import opened Common
  import opened HttpTypes
  import opened HttpStep
  import opened HttpRun

  // ---- The forms --------------------------------------------------------------------------------

  predicate TargetChar(b: byte) {
    IsUrlChar(b) || b == Ch('?') || b == Ch('#')
  }

  predicate AllTarget(t: seq<byte>) {
    forall i :: 0 <= i < |t| ==> TargetChar(t[i])
  }

  predicate AllLetters(t: seq<byte>) {
    forall i :: 0 <= i < |t| ==> IsAlpha(t[i])
  }

  predicate AllHost(t: seq<byte>) {
    forall i :: 0 <= i < |t| ==> IsHostChar(t[i])
  }

  predicate AllNum(t: seq<byte>) {
    forall i :: 0 <= i < |t| ==> IsNum(t[i])
  }

  /** What may stand behind a host or a port: nothing, or a path or a query with what follows it. */
  predicate PathTail(t: seq<byte>) {
    t == [] || ((t[0] == Ch('/') || t[0] == Ch('?')) && AllTarget(t[1..]))
  }

  /** Digits, as many as there are, and a tail. */
  predicate PortForm(t: seq<byte>) {
    exists k :: 0 <= k <= |t| && AllNum(t[..k]) && PathTail(t[k..])
  }

  /** Behind the characters of a host. */
  predicate HostEnd(t: seq<byte>) {
    PathTail(t) || (t != [] && t[0] == Ch(':') && PortForm(t[1..]))
  }

  /** The characters of a host, a port if there is one, and a tail. */
  predicate HostForm(t: seq<byte>) {
    exists k :: 0 <= k <= |t| && AllHost(t[..k]) && HostEnd(t[k..])
  }

  /** Letters, a colon, the place of two slashes, at which the source takes any two bytes, and a host. */
  predicate SchemeForm(t: seq<byte>) {
    exists k :: 0 <= k && k + 3 <= |t| && AllLetters(t[..k]) && t[k] == Ch(':') && HostForm(t[k + 3..])
  }

  /** Origin and asterisk form. */
  predicate PathForm(t: seq<byte>) {
    t != [] && (t[0] == Ch('/') || t[0] == Ch('*')) && AllTarget(t[1..])
  }

  /** A letter, or a digit as well where the method is CONNECT, and what goes with it. */
  predicate IsTarget(connect: bool, t: seq<byte>) {
    || PathForm(t)
    || (connect && t != [] && (IsAlpha(t[0]) || IsNum(t[0])) && HostForm(t[1..]))
    || (!connect && t != [] && IsAlpha(t[0]) && SchemeForm(t[1..]))
  }

  // ---- The forms, one byte at a time --------------------------------------------------------------

  /** A list behind its first byte. */
  lemma DropFirst(b: byte, t: seq<byte>, n: nat)
    requires n <= |t|
    ensures ([b] + t)[n + 1..] == t[n..] && ([b] + t)[..n + 1] == [b] + t[..n]
    ensures n < |t| ==> ([b] + t)[n + 1] == t[n]
    ensures ([b] + t)[0..] == [b] + t && ([b] + t)[..0] == []
  {
  }

  lemma AllTargetNext(b: byte, t: seq<byte>)
    ensures AllTarget([b] + t) <==> TargetChar(b) && AllTarget(t)
  {
    hide TargetChar;
    if AllTarget([b] + t) {
      assert ([b] + t)[0] == b;
      forall i | 0 <= i < |t| ensures TargetChar(t[i]) { assert ([b] + t)[i + 1] == t[i]; }
    }
  }

  lemma PathTailNext(b: byte, t: seq<byte>)
    ensures PathTail([]) && (PathTail([b] + t) <==> (b == Ch('/') || b == Ch('?')) && AllTarget(t))
  {
    hide AllTarget;
    assert ([b] + t)[1..] == t;
  }

  lemma PortNone()
    ensures PortForm([])
  {
    assert AllNum([][..0]) && PathTail([][0..]);
  }

  lemma PortNext(b: byte, t: seq<byte>)
    ensures PortForm([b] + t) <==> if IsNum(b) then PortForm(t) else PathTail([b] + t)
  {
    hide PathTail;
    var bt := [b] + t;
    if PortForm(bt) {
      var k :| 0 <= k <= |bt| && AllNum(bt[..k]) && PathTail(bt[k..]);
      if k == 0 {
        PathTailNext(b, t);
        DropFirst(b, t, 0);
      } else {
        DropFirst(b, t, k - 1);
        assert bt[..k][0] == b && t[..k - 1] == bt[..k][1..];
      }
    }
    if IsNum(b) && PortForm(t) {
      var k :| 0 <= k <= |t| && AllNum(t[..k]) && PathTail(t[k..]);
      DropFirst(b, t, k);
      assert AllNum(bt[..k + 1]) && PathTail(bt[k + 1..]);
    }
    if !IsNum(b) && PathTail(bt) {
      DropFirst(b, t, 0);
      assert AllNum(bt[..0]) && PathTail(bt[0..]);
    }
  }

  lemma HostEndNext(b: byte, t: seq<byte>)
    ensures HostEnd([]) && (HostEnd([b] + t) <==> PathTail([b] + t) || (b == Ch(':') && PortForm(t)))
  {
    hide PortForm;
    hide PathTail;
    PathTailNext(b, t);
    assert ([b] + t)[1..] == t;
  }

  lemma HostNone()
    ensures HostForm([])
  {
    hide PathTail;
    hide PortForm;
    PathTailNext(0, []);
    assert AllHost([][..0]) && HostEnd([][0..]);
  }

  lemma HostNext(b: byte, t: seq<byte>)
    ensures HostForm([b] + t) <==> if IsHostChar(b) then HostForm(t) else HostEnd([b] + t)
  {
    hide HostEnd;
    hide IsHostChar;
    var bt := [b] + t;
    if HostForm(bt) {
      var k :| 0 <= k <= |bt| && AllHost(bt[..k]) && HostEnd(bt[k..]);
      if k == 0 {
        DropFirst(b, t, 0);
        if IsHostChar(b) { NoHostEnd(b, t); }
      } else {
        DropFirst(b, t, k - 1);
        assert bt[..k][0] == b && t[..k - 1] == bt[..k][1..];
      }
    }
    if IsHostChar(b) && HostForm(t) {
      var k :| 0 <= k <= |t| && AllHost(t[..k]) && HostEnd(t[k..]);
      DropFirst(b, t, k);
      assert AllHost(bt[..k + 1]) && HostEnd(bt[k + 1..]);
    }
    if !IsHostChar(b) && HostEnd(bt) {
      DropFirst(b, t, 0);
      assert AllHost(bt[..0]) && HostEnd(bt[0..]);
    }
  }

  lemma NoHostEnd(b: byte, t: seq<byte>)
    requires IsHostChar(b)
    ensures !HostEnd([b] + t)
  {
    hide PathTail;
    HostEndNext(b, t);
    PathTailNext(b, t);
  }

  lemma SchemeNext(b: byte, t: seq<byte>)
    ensures SchemeForm([b] + t) <==>
            if IsAlpha(b) then SchemeForm(t) else b == Ch(':') && |t| >= 2 && HostForm(t[2..])
  {
    hide HostForm;
    var bt := [b] + t;
    if SchemeForm(bt) {
      var k :| 0 <= k && k + 3 <= |bt| && AllLetters(bt[..k]) && bt[k] == Ch(':') && HostForm(bt[k + 3..]);
      DropFirst(b, t, k + 2);
      if k > 0 {
        DropFirst(b, t, k - 1);
        assert bt[..k][0] == b && t[..k - 1] == bt[..k][1..];
      }
    }
    if IsAlpha(b) && SchemeForm(t) {
      var k :| 0 <= k && k + 3 <= |t| && AllLetters(t[..k]) && t[k] == Ch(':') && HostForm(t[k + 3..]);
      DropFirst(b, t, k);
      DropFirst(b, t, k + 3);
      assert AllLetters(bt[..k + 1]) && bt[k + 1] == Ch(':') && HostForm(bt[k + 4..]);
    }
    if b == Ch(':') && |t| >= 2 && HostForm(t[2..]) {
      DropFirst(b, t, 2);
      assert AllLetters(bt[..0]) && bt[0] == b && HostForm(bt[3..]);
    }
  }

  // ---- What is left to come of a target -----------------------------------------------------------

  predicate InPath(s: State) {
    s == ReqPath || s == ReqQueryStart || s == ReqQuery || s == ReqFragmentStart || s == ReqFragment
  }

  predicate InTarget(s: State) {
    InPath(s) || s == ReqSchema || s == ReqSchemaSlash || s == ReqSchemaSlashSlash || s == ReqHost || s == ReqPort
  }

  /** What the rest of a target may be from a state on. */
  predicate Rest(s: State, t: seq<byte>) {
    match s
    case ReqSchema => SchemeForm(t)
    case ReqSchemaSlash => |t| >= 2 && HostForm(t[2..])
    case ReqSchemaSlashSlash => |t| >= 1 && HostForm(t[1..])
    case ReqHost => HostForm(t)
    case ReqPort => PortForm(t)
    case _ => AllTarget(t)
  }

  lemma RestNone(s: State)
    requires InTarget(s)
    ensures Rest(s, []) <==> s != ReqSchema && s != ReqSchemaSlash && s != ReqSchemaSlashSlash
  {
    hide PortForm;
    hide HostForm;
    PortNone();
    HostNone();
  }

  // ---- The steps ----------------------------------------------------------------------------------

  /** The parse has failed, or the target has been handed over as it ends in front of pos. */
  predicate Cut(p: Parser, s: Step, pos: nat) {
    || s.status == Failed
    || (s.status == Reading && p.urlMark.Some? && s.events != [] && s.events[0] == Url(p.urlMark.value, pos, Seen(p)))
  }

  /** A byte that may stand in the target leads on without a call, and any other one ends it. */
  predicate Leads(p: Parser, s: Step, b: byte, t: seq<byte>, pos: nat) {
    || (s == Go(p.(state := s.p.state)) && InTarget(s.p.state) && (Rest(p.state, [b] + t) <==> Rest(s.p.state, t)))
    || (Cut(p, s, pos) && !Rest(p.state, [b] + t))
  }

  lemma TargetGroup(p: Parser, b: byte, pos: nat)
    requires InTarget(p.state) || p.state == ReqSpacesBeforeUrl
    ensures StepByte(p, b, pos) == StepUrl(p, b, pos)
  {
    hide StepUrl;
  }

  lemma PathStep(p: Parser, b: byte, t: seq<byte>, pos: nat)
    requires InPath(p.state) && p.urlMark.Some?
    ensures Leads(p, StepByte(p, b, pos), b, t, pos)
  {
    hide AllTarget;
    hide Seen;
    hide IsUrlChar;
    hide StepByte;
    TargetGroup(p, b, pos);
    AllTargetNext(b, t);
    PlainChars(b);
  }

  lemma PlainChars(b: byte)
    ensures b == 32 || b == CR || b == LF ==> !TargetChar(b)
    ensures b == Ch('?') || b == Ch('#') ==> !IsUrlChar(b)
  {
  }

  lemma PortStep(p: Parser, b: byte, t: seq<byte>, pos: nat)
    requires p.state == ReqPort && p.urlMark.Some?
    ensures Leads(p, StepByte(p, b, pos), b, t, pos)
  {
    hide AllTarget;
    hide PathTail;
    hide PortForm;
    hide Seen;
    PortNext(b, t);
    PathTailNext(b, t);
    QueryStarts(t);
  }

  lemma QueryStarts(t: seq<byte>)
    ensures Rest(ReqQueryStart, t) <==> AllTarget(t)
    ensures Rest(ReqPath, t) <==> AllTarget(t)
  {
  }

  lemma HostStep(p: Parser, b: byte, t: seq<byte>, pos: nat)
    requires p.state == ReqHost && p.urlMark.Some?
    ensures Leads(p, StepByte(p, b, pos), b, t, pos)
  {
    hide AllTarget;
    hide PathTail;
    hide PortForm;
    hide HostForm;
    hide HostEnd;
    hide Seen;
    hide IsHostChar;
    HostNext(b, t);
    HostEndNext(b, t);
    PathTailNext(b, t);
    QueryStarts(t);
    PlainHost(b);
  }

  lemma PlainHost(b: byte)
    ensures b == Ch(':') || b == Ch('/') || b == Ch('?') || b == 32 ==> !IsHostChar(b)
  {
  }

  lemma SchemeStep(p: Parser, b: byte, t: seq<byte>, pos: nat)
    requires p.state == ReqSchema || p.state == ReqSchemaSlash || p.state == ReqSchemaSlashSlash
    requires p.urlMark.Some?
    ensures Leads(p, StepByte(p, b, pos), b, t, pos)
  {
    hide HostForm;
    hide SchemeForm;
    hide Seen;
    hide IsAlpha;
    hide StepByte;
    TargetGroup(p, b, pos);
    SchemeNext(b, t);
    LetterNoColon();
    assert ([b] + t)[1..] == t;
    if |t| >= 1 { assert ([b] + t)[2..] == t[1..]; }
  }

  lemma LetterNoColon()
    ensures !IsAlpha(58)
  {
  }

  lemma TargetStep(p: Parser, b: byte, t: seq<byte>, pos: nat)
    requires InTarget(p.state) && p.urlMark.Some?
    ensures Leads(p, StepByte(p, b, pos), b, t, pos)
  {
    hide StepByte;
    hide Leads;
    if InPath(p.state) {
      PathStep(p, b, t, pos);
    } else if p.state == ReqPort {
      PortStep(p, b, t, pos);
    } else if p.state == ReqHost {
      HostStep(p, b, t, pos);
    } else {
      SchemeStep(p, b, t, pos);
    }
  }

  /** The space behind a target, where it may end. */
  lemma SpaceStep(p: Parser, pos: nat, mark: nat)
    requires InTarget(p.state) && p.urlMark == Some(mark)
    ensures if Rest(p.state, [])
            then StepByte(p, 32, pos) ==
                 Step(p.(urlMark := None, state := ReqHttpStart), [Url(mark, pos, Seen(p))], Reading)
            else StepByte(p, 32, pos).status == Failed || StepByte(p, 32, pos).events == []
  {
    hide Seen;
    hide Rest;
    hide StepByte;
    TargetGroup(p, 32, pos);
    RestNone(p.state);
  }

  // ---- What has been handed over stays ------------------------------------------------------------

  /** The first n calls of a log, of which the last is no piece of a body, can no longer change. */
  predicate Settled(log: seq<Event>, n: nat) {
    n <= |log| && (n == 0 || !log[n - 1].Body?)
  }

  lemma {:induction false} EmitKeeps(log: seq<Event>, es: seq<Event>, n: nat)
    requires Settled(log, n)
    ensures Settled(EmitAll(log, es), n) && EmitAll(log, es)[..n] == log[..n]
    decreases |es|
  {
    if es != [] {
      assert Emit(log, es[0])[..n] == log[..n];
      EmitKeeps(Emit(log, es[0]), es[1..], n);
    }
  }

  lemma {:induction false} ProcessKeeps(p: Parser, log: seq<Event>, data: seq<byte>, base: nat, n: nat)
    requires Settled(log, n)
    ensures var c := Process(p, log, data, base);
            Settled(c.log, n) && c.log[..n] == log[..n]
    decreases |data|
  {
    hide StepByte;
    hide EmitAll;
    hide Settled;
    if data == [] {
      ProcessNone(p, log, base);
    } else {
      var s := StepByte(p, data[0], base);
      ProcessStep(p, log, data, base);
      EmitKeeps(log, s.events, n);
      assert Settled(log, n) ==> n <= |log| by { SettledBound(log, n); }
      if s.status == Reading { ProcessKeeps(s.p, EmitAll(log, s.events), data[1..], base + 1, n); }
    }
  }

  lemma SettledBound(log: seq<Event>, n: nat)
    requires Settled(log, n)
    ensures n <= |log|
  {
  }

  lemma EmitFirst(log: seq<Event>, es: seq<Event>)
    requires es != [] && !es[0].Body?
    ensures EmitAll(log, es) == EmitAll(log + [es[0]], es[1..]) && Settled(log + [es[0]], |log| + 1)
  {
  }

  /** A target that was handed over at pos was not handed over further on. */
  lemma CutIsOver(p: Parser, log: seq<Event>, data: seq<byte>, base: nat, q: Parser, next: seq<Event>)
    requires data != [] && Cut(p, StepByte(p, data[0], base), base) && p.urlMark.Some?
    requires |next| == |log| + 1 && next[|log|].Url? && next[|log|].to > base
    ensures !Takes(p, log, data, base, q, next)
  {
    hide StepByte;
    hide EmitAll;
    hide Seen;
    var s := StepByte(p, data[0], base);
    ProcessStep(p, log, data, base);
    if s.status == Reading {
      var one := log + [s.events[0]];
      EmitFirst(log, s.events);
      EmitKeeps(one, s.events[1..], |one|);
      ProcessKeeps(s.p, EmitAll(log, s.events), data[1..], base + 1, |one|);
      assert EmitAll(log, s.events)[..|one|][|log|] == s.events[0];
    }
  }

  // ---- Whole targets ------------------------------------------------------------------------------

  lemma LeadsEither(p: Parser, s: Step, b: byte, t: seq<byte>, pos: nat)
    requires Leads(p, s, b, t, pos)
    ensures || (s == Go(s.p) && s.p == p.(state := s.p.state) && InTarget(s.p.state)
                && (Rest(p.state, [b] + t) <==> Rest(s.p.state, t)))
            || (Cut(p, s, pos) && !Rest(p.state, [b] + t))
  {
  }

  lemma LastByte(p: Parser, log: seq<Event>, base: nat, mark: nat)
    requires InTarget(p.state) && p.urlMark == Some(mark)
    ensures Rest(p.state, []) <==>
            Takes(p, log, [32], base, p.(urlMark := None, state := ReqHttpStart), log + [Url(mark, base, Seen(p))])
  {
    hide StepByte;
    hide Seen;
    hide Rest;
    SpaceStep(p, base, mark);
    EmitQuiet(log, Url(mark, base, Seen(p)));
    EmitNone(log);
    ProcessStep(p, log, [32], base);
    assert [32][1..] == [];
    ProcessNone(StepByte(p, 32, base).p, EmitAll(log, StepByte(p, 32, base).events), base + 1);
  }

  /** The rest of a target and the space behind it. */
  lemma {:induction false} RestTaken(p: Parser, log: seq<Event>, t: seq<byte>, base: nat, mark: nat)
    requires InTarget(p.state) && p.urlMark == Some(mark)
    ensures Rest(p.state, t) <==>
            Takes(p, log, t + [32], base, p.(urlMark := None, state := ReqHttpStart),
                  log + [Url(mark, base + |t|, Seen(p))])
    decreases |t|
  {
    hide *;
    if t == [] {
      assert t + [32] == [32];
      LastByte(p, log, base, mark);
    } else {
      var b, s := t[0], StepByte(p, t[0], base);
      assert t == [b] + t[1..] && t + [32] == [b] + (t[1..] + [32]) && (t + [32])[0] == b;
      TargetStep(p, b, t[1..], base);
      LeadsEither(p, s, b, t[1..], base);
      if Cut(p, s, base) && !Rest(p.state, t) {
        CutIsOver(p, log, t + [32], base, p.(urlMark := None, state := ReqHttpStart),
                  log + [Url(mark, base + |t|, Seen(p))]);
      } else {
        RestTaken(s.p, log, t[1..], base + 1, mark);
        SeenAnywhere(p, s.p);
        StepTaken(p, log, b, t[1..] + [32], base, s.p);
        TakesSame(p, s.p, log, t + [32], t[1..] + [32], base, s.p.(urlMark := None, state := ReqHttpStart),
                  log + [Url(mark, base + |t|, Seen(p))]);
      }
    }
  }

  // ---- The first byte -----------------------------------------------------------------------------

  lemma FirstStep(p: Parser, b: byte, t: seq<byte>, pos: nat)
    requires p.state == ReqSpacesBeforeUrl && b != 32
    ensures var s := StepByte(p, b, pos);
            || (s == Go(s.p) && s.p == p.(urlMark := Some(pos), state := s.p.state) && InTarget(s.p.state)
                && (IsTarget(p.verb == CONNECT, [b] + t) <==> Rest(s.p.state, t)))
            || (s.status == Failed && !IsTarget(p.verb == CONNECT, [b] + t))
  {
    hide AllTarget;
    hide HostForm;
    hide SchemeForm;
    hide IsAlpha;
    hide IsNum;
    assert ([b] + t)[1..] == t;
    PlainFirst();
  }

  lemma PlainFirst()
    ensures !IsAlpha(47) && !IsAlpha(42) && !IsNum(47) && !IsNum(42)
  {
  }

  /**
   * A target is handed over whole at the space behind it, exactly if it has one of the four forms. It has come
   * no further than the start of the version then, and nothing but the call has changed.
   */
  lemma TargetExact(p: Parser, log: seq<Event>, t: seq<byte>, base: nat)
    requires p.state == ReqSpacesBeforeUrl && t != [] && t[0] != 32
    ensures IsTarget(p.verb == CONNECT, t) <==>
            Takes(p, log, t + [32], base, p.(urlMark := None, state := ReqHttpStart),
                  log + [Url(base, base + |t|, Seen(p))])
  {
    hide *;
    var b, s := t[0], StepByte(p, t[0], base);
    assert t == [b] + t[1..] && t + [32] == [b] + (t[1..] + [32]) && (t + [32])[0] == b;
    FirstStep(p, b, t[1..], base);
    if s.status == Failed && !IsTarget(p.verb == CONNECT, t) {
      FailsFirst(p, log, t + [32], base);
    } else {
      SeenAnywhere(p, s.p);
      StepTaken(p, log, b, t[1..] + [32], base, s.p);
      RestTaken(s.p, log, t[1..], base + 1, base);
      TakesSame(p, s.p, log, t + [32], t[1..] + [32], base, s.p.(urlMark := None, state := ReqHttpStart),
                log + [Url(base, base + |t|, Seen(p))]);
    }
  }

}
