/**
 * The HTTP/1.1 parser as the object the source keeps for a connection: one call works through the
 * bytes at hand in a loop, takes bodies in bulk, ends behind the first complete message and saves
 * its state for the next call.
 */
module HttpParser {
  import opened Common
  import opened HttpTypes
  import opened HttpStep
  import opened HttpInvariant
  import opened HttpRun
  import opened HttpMarks

  function Min(a: nat, b: nat): nat {
    if a < b then a else b
  }

  lemma JoinedAppend(calls: seq<Event>, es: seq<Event>)
    ensures Joined(calls + es) == EmitAll(Joined(calls), es)
  {
    EmitAllConcat([], calls, es);
  }

  lemma JoinedNext(calls: seq<Event>, e: Event)
    ensures Joined(calls + [e]) == Emit(Joined(calls), e)
  {
    JoinedAppend(calls, [e]);
    EmitOne(Joined(calls), e);
  }

  /** Part of a body taken leaves a body that still has bytes to come. */
  lemma PartSound(p: Parser, pos: nat, n: nat)
    requires Sound(p, pos) && (p.state == BodyIdentity || p.state == ChunkData) && n < p.contentLength
    ensures Sound(Less(p, n), pos + n)
  {
  }

  lemma BodyStates(p: Parser, pos: nat)
    requires Sound(p, pos)
    ensures p.state == BodyIdentity || p.state == ChunkData ==> p.contentLength > 0
    ensures p.index < 256
  {
  }

  lemma ChunkTaken(p: Parser, pos: nat, n: nat)
    requires Sound(p, pos) && p.state == ChunkData && n == p.contentLength
    ensures Sound(Less(p, n).(state := ChunkDataAlmostDone), pos + n)
  {
  }

  lemma MessageTaken(p: Parser, pos: nat, n: nat)
    requires Sound(p, pos) && p.state == BodyIdentity && n == p.contentLength
    ensures Sound(Less(p, n).(state := StartState(p.kind)), pos + n)
  {
  }

  lemma EofTaken(p: Parser, pos: nat, n: nat)
    requires Sound(p, pos) && p.state == BodyIdentityEof
    ensures Sound(p, pos + n)
  {
  }

  lemma StepSound(p: Parser, b: byte, pos: nat)
    requires Sound(p, pos)
    ensures var s := StepByte(p, b, pos);
            s.status == Reading || s.status == Complete ==> Sound(s.p, pos + 1)
  {
    hide StepByte;
    hide Sound;
    StepKeeps(p, b, pos);
  }

  /** A run that has come to position i of the data with p and log. */
  ghost predicate At(whole: Call, p: Parser, log: seq<Event>, data: seq<byte>, base: nat, i: nat)
    requires i <= |data|
  {
    whole == Later(i, Process(p, log, data[i..], base + i))
  }

  lemma AtEnd(whole: Call, p: Parser, log: seq<Event>, data: seq<byte>, base: nat)
    requires At(whole, p, log, data, base, |data|)
    ensures whole == Call(p, log, |data|, Reading)
  {
  }

  lemma AtStep(whole: Call, p: Parser, log: seq<Event>, data: seq<byte>, base: nat, i: nat)
    requires i < |data| && At(whole, p, log, data, base, i)
    ensures var s := StepByte(p, data[i], base + i);
            if s.status == Reading then At(whole, s.p, EmitAll(log, s.events), data, base, i + 1)
            else whole == Call(s.p, EmitAll(log, s.events), i + 1, s.status)
  {
    hide StepByte;
    ProcessStep(p, log, data[i..], base + i);
    assert data[i..][0] == data[i] && data[i..][1..] == data[i + 1..];
  }

  lemma AtIdentity(whole: Call, p: Parser, log: seq<Event>, data: seq<byte>, base: nat, i: nat, n: nat)
    requires p.state == BodyIdentity && 1 <= n <= p.contentLength
    requires i + n <= |data| && At(whole, p, log, data, base, i)
    ensures var q, next := Less(p, n), Emit(log, Body(base + i, base + i + n));
            if n == p.contentLength
            then whole == Call(q.(state := StartState(q.kind)), Emit(next, MessageComplete(Seen(q))), i + n, Complete)
            else At(whole, q, next, data, base, i + n)
  {
    hide Process;
    hide Seen;
    hide StartState;
    hide Emit;
    BulkIdentity(p, log, data[i..], base + i, n);
    assert data[i..][n..] == data[i + n..];
  }

  lemma AtChunk(whole: Call, p: Parser, log: seq<Event>, data: seq<byte>, base: nat, i: nat, n: nat)
    requires p.state == ChunkData && 1 <= n <= p.contentLength
    requires i + n <= |data| && At(whole, p, log, data, base, i)
    ensures At(whole, Less(p, n).(state := if n == p.contentLength then ChunkDataAlmostDone else ChunkData),
               Emit(log, Body(base + i, base + i + n)), data, base, i + n)
  {
    hide Process;
    hide Emit;
    BulkChunk(p, log, data[i..], base + i, n);
    assert data[i..][n..] == data[i + n..];
  }

  lemma AtEof(whole: Call, p: Parser, log: seq<Event>, data: seq<byte>, base: nat, i: nat)
    requires p.state == BodyIdentityEof && i < |data| && At(whole, p, log, data, base, i)
    ensures At(whole, p, Emit(log, Body(base + i, base + |data|)), data, base, |data|)
  {
    hide Process;
    hide Emit;
    BulkEof(p, log, data[i..], base + i);
    assert data[|data|..] == [];
    ProcessNone(p, Emit(log, Body(base + i, base + |data|)), base + |data|);
  }

  lemma Begins(whole: Call, p: Parser, log: seq<Event>, data: seq<byte>, base: nat)
    requires whole == Process(p, log, data, base)
    ensures At(whole, p, log, data, base, 0)
  {
    assert data[0..] == data;
  }

  lemma CompleteState(p: Parser, log: seq<Event>, data: seq<byte>, base: nat)
    requires Sound(p, base)
    ensures Process(p, log, data, base).status == Complete ==> Process(p, log, data, base).p.state != BodyIdentityEof
  {
    ProcessSound(p, log, data, base);
  }

  lemma EofOver(p: Parser, pos: nat)
    requires Sound(p, pos) && p.state == BodyIdentityEof
    ensures Sound(p.(state := StartState(p.kind)), pos)
  {
  }

  // ---- The turns of the loop --------------------------------------------------------------------

  /** What holds of the variables of the loop, with i bytes taken. */
  ghost predicate Loop(whole: Call, p: Parser, calls: seq<Event>, data: seq<byte>, base: nat, i: nat, parsed: nat) {
    && i <= |data| && Sound(p, base + i)
    && (parsed == 0 ==> At(whole, p, Joined(calls), data, base, i))
    && (parsed > 0 ==> whole == Call(p, Joined(calls), i, Complete))
  }

  lemma LoopBegins(p: Parser, calls: seq<Event>, data: seq<byte>, base: nat)
    requires Sound(p, base)
    ensures Loop(Process(p, Joined(calls), data, base), p, calls, data, base, 0, 0)
  {
    hide Sound;
    hide Joined;
    Begins(Process(p, Joined(calls), data, base), p, Joined(calls), data, base);
  }

  lemma IdentityTurn(whole: Call, p: Parser, calls: seq<Event>, data: seq<byte>, base: nat, i: nat, n: nat)
    requires i < |data| && Loop(whole, p, calls, data, base, i, 0)
    requires p.state == BodyIdentity && n == Min(|data| - i, p.contentLength) && n > 0
    ensures var q, next := p.(contentLength := p.contentLength - n), calls + [Body(base + i, base + i + n)];
            if q.contentLength == 0
            then Loop(whole, q.(state := StartState(q.kind)), next + [MessageComplete(Seen(q))], data, base, i + n, 1)
            else Loop(whole, q, next, data, base, i + n, 0)
  {
    hide Sound;
    hide Joined;
    hide At;
    hide Seen;
    hide Emit;
    hide StartState;
    AtIdentity(whole, p, Joined(calls), data, base, i, n);
    JoinedNext(calls, Body(base + i, base + i + n));
    if n == p.contentLength {
      MessageTaken(p, base + i, n);
      JoinedNext(calls + [Body(base + i, base + i + n)], MessageComplete(Seen(Less(p, n))));
    } else {
      PartSound(p, base + i, n);
    }
  }

  lemma ChunkTurn(whole: Call, p: Parser, calls: seq<Event>, data: seq<byte>, base: nat, i: nat, n: nat)
    requires i < |data| && Loop(whole, p, calls, data, base, i, 0)
    requires p.state == ChunkData && n == Min(|data| - i, p.contentLength) && n > 0
    ensures Loop(whole, p.(contentLength := p.contentLength - n,
                           state := if n == p.contentLength then ChunkDataAlmostDone else ChunkData),
                 calls + [Body(base + i, base + i + n)], data, base, i + n, 0)
  {
    hide Sound;
    hide Joined;
    hide At;
    hide Emit;
    AtChunk(whole, p, Joined(calls), data, base, i, n);
    JoinedNext(calls, Body(base + i, base + i + n));
    if n == p.contentLength { ChunkTaken(p, base + i, n); } else { PartSound(p, base + i, n); }
  }

  lemma EofTurn(whole: Call, p: Parser, calls: seq<Event>, data: seq<byte>, base: nat, i: nat)
    requires i < |data| && Loop(whole, p, calls, data, base, i, 0) && p.state == BodyIdentityEof
    ensures Loop(whole, p, calls + [Body(base + i, base + |data|)], data, base, |data|, 0)
  {
    hide Sound;
    hide Joined;
    hide At;
    hide Emit;
    AtEof(whole, p, Joined(calls), data, base, i);
    JoinedNext(calls, Body(base + i, base + |data|));
    EofTaken(p, base + i, |data| - i);
  }

  lemma ByteTurn(whole: Call, p: Parser, calls: seq<Event>, data: seq<byte>, base: nat, i: nat)
    requires i < |data| && Loop(whole, p, calls, data, base, i, 0)
    ensures var s := StepByte(p, data[i], base + i);
            if s.status == Reading then Loop(whole, s.p, calls + s.events, data, base, i + 1, 0)
            else if s.status == Complete then Loop(whole, s.p, calls + s.events, data, base, i + 1, 1)
            else whole == EndOfCall(whole) == Call(s.p, Joined(calls + s.events), i + 1, s.status)
  {
    hide StepByte;
    hide Sound;
    hide Joined;
    hide At;
    hide EmitAll;
    var s := StepByte(p, data[i], base + i);
    AtStep(whole, p, Joined(calls), data, base, i);
    JoinedAppend(calls, s.events);
    StepSound(p, data[i], base + i);
  }

  /** The end of the call, with the message of a body that ends with the stream. */
  lemma LoopEnds(whole: Call, p: Parser, calls: seq<Event>, data: seq<byte>, base: nat, i: nat, parsed: nat)
    requires whole.status == Complete ==> whole.p.state != BodyIdentityEof
    requires Loop(whole, p, calls, data, base, i, parsed) && (i == |data| || parsed > 0)
    ensures if p.state == BodyIdentityEof
            then var q, next := p.(state := StartState(p.kind)), calls + [MessageComplete(Seen(p))];
                 EndOfCall(whole) == Call(q, Joined(next), i, Complete) && Sound(q, base + i)
            else EndOfCall(whole) == Call(p, Joined(calls), i, if parsed > 0 then Complete else Reading) && Sound(p, base + i)
    ensures p.index < 256
  {
    hide Sound;
    hide Joined;
    hide At;
    hide Emit;
    hide Process;
    hide Seen;
    hide StartState;
    BodyStates(p, base + i);
    if parsed == 0 { AtEnd(whole, p, Joined(calls), data, base); }
    if p.state == BodyIdentityEof {
      JoinedNext(calls, MessageComplete(Seen(p)));
      EofOver(p, base + i);
    }
  }

  lemma LoopWithin(whole: Call, p: Parser, calls: seq<Event>, data: seq<byte>, base: nat, i: nat, parsed: nat)
    requires Loop(whole, p, calls, data, base, i, parsed)
    ensures i <= |data|
  {
  }

  lemma LoopSound(whole: Call, p: Parser, calls: seq<Event>, data: seq<byte>, base: nat, i: nat, parsed: nat)
    requires Loop(whole, p, calls, data, base, i, parsed)
    ensures Sound(p, base + i)
    ensures p.state == BodyIdentity || p.state == ChunkData ==> p.contentLength > 0
  {
    BodyStates(p, base + i);
  }

  lemma MinIs(a: nat, b: nat)
    ensures Min(a, b) == if a < b then a else b
  {
  }

  class Parsing {
    var saved: Parser
    var calls: seq<Event>

    constructor (p: Parser)
      ensures saved == p && calls == []
    {
      saved, calls := p, [];
    }

    /**
     * A call without data says zero exactly when nothing is cut off: between messages, and in a body that
     * ends with the stream. It makes the calls that a call over no bytes comes to at its end.
     */
    method ProcessNothing(ghost base: nat) returns (processed: int)
      requires Sound(saved, base)
      modifies this
      ensures saved == old(saved)
      ensures processed == 0 || processed == 1
      ensures processed == 0 <==> saved.state == StartState(saved.kind) || saved.state == BodyIdentityEof
      ensures old(calls) <= calls
      ensures Joined(calls) == EndOfCall(Process(saved, Joined(old(calls)), [], base)).log
    {
      ProcessNone(saved, Joined(calls), base);
      if saved.state == BodyIdentityEof {
        JoinedNext(calls, MessageComplete(Seen(saved)));
        calls := calls + [MessageComplete(Seen(saved))];
        return 0;
      }
      if saved.state == Dead || saved.state == StartReqOrRes || saved.state == StartRes || saved.state == StartReq {
        return 0;
      }
      return 1;
    }

    /** As much of a body of announced length as there is; with the last of it the message is over. */
    method TakeIdentity(p: Parser, data: seq<byte>, base: nat, i: nat,
                        ghost whole: Call, ghost was: seq<Event>, ghost floor: nat)
      returns (q: Parser, end: nat, parsed: nat)
      requires i < |data| && Loop(whole, p, calls, data, base, i, 0) && Tracked(p, calls, was, floor, base + i)
      requires p.state == BodyIdentity && p.contentLength > 0
      modifies this`calls
      ensures i < end <= |data| && Loop(whole, q, calls, data, base, end, parsed)
      ensures Tracked(q, calls, was, floor, base + end)
    {
      hide *;
      var toRead := if |data| - i < p.contentLength then |data| - i else p.contentLength;
      MinIs(|data| - i, p.contentLength);
      IdentityTurn(whole, p, calls, data, base, i, toRead);
      q, end, parsed := p.(contentLength := p.contentLength - toRead), i + toRead, 0;
      OutsideBodies();
      TrackedBody(p, calls, was, floor, base + i, q, base + i + toRead);
      calls := calls + [Body(base + i, base + i + toRead)];
      if q.contentLength == 0 {
        TrackedComplete(q, calls, was, floor, base + i + toRead, Seen(q));
        calls := calls + [MessageComplete(Seen(q))];
        q := q.(state := StartState(q.kind));
        parsed := parsed + 1;
      }
    }

    /** As much of the data of a chunk as there is. */
    method TakeChunk(p: Parser, data: seq<byte>, base: nat, i: nat,
                     ghost whole: Call, ghost was: seq<Event>, ghost floor: nat)
      returns (q: Parser, end: nat)
      requires i < |data| && Loop(whole, p, calls, data, base, i, 0) && Tracked(p, calls, was, floor, base + i)
      requires p.state == ChunkData && p.contentLength > 0
      modifies this`calls
      ensures i < end <= |data| && Loop(whole, q, calls, data, base, end, 0)
      ensures Tracked(q, calls, was, floor, base + end)
    {
      hide *;
      var toRead := if |data| - i < p.contentLength then |data| - i else p.contentLength;
      MinIs(|data| - i, p.contentLength);
      ChunkTurn(whole, p, calls, data, base, i, toRead);
      q, end := p, i + toRead;
      if toRead == p.contentLength { q := q.(state := ChunkDataAlmostDone); }
      q := q.(contentLength := q.contentLength - toRead);
      OutsideBodies();
      TrackedBody(p, calls, was, floor, base + i, q, base + i + toRead);
      calls := calls + [Body(base + i, base + i + toRead)];
    }

    /** One byte through the switch. */
    method TakeByte(p: Parser, data: seq<byte>, base: nat, i: nat,
                    ghost whole: Call, ghost was: seq<Event>, ghost floor: nat)
      returns (q: Parser, status: Status)
      requires i < |data| && Loop(whole, p, calls, data, base, i, 0) && Tracked(p, calls, was, floor, base + i)
      modifies this`calls
      ensures CallsIn(calls, was, floor, base + |data|)
      ensures if status == Reading || status == Complete
              then && Loop(whole, q, calls, data, base, i + 1, if status == Complete then 1 else 0)
                   && Tracked(q, calls, was, floor, base + i + 1)
              else whole == EndOfCall(whole) == Call(q, Joined(calls), i + 1, status)
    {
      hide *;
      LoopSound(whole, p, calls, data, base, i, 0);
      ByteTurn(whole, p, calls, data, base, i);
      TrackedStep(p, calls, was, floor, data[i], base + i);
      var s := StepByte(p, data[i], base + i);
      CallsLater(calls + s.events, was, floor, base + i + 1, base + |data|);
      calls := calls + s.events;
      return s.p, s.status;
    }

    /** All that is at hand of a body that ends with the stream. */
    method TakeRest(p: Parser, data: seq<byte>, base: nat, i: nat,
                    ghost whole: Call, ghost was: seq<Event>, ghost floor: nat)
      requires i < |data| && Loop(whole, p, calls, data, base, i, 0) && Tracked(p, calls, was, floor, base + i)
      requires p.state == BodyIdentityEof
      modifies this`calls
      ensures Loop(whole, p, calls, data, base, |data|, 0) && Tracked(p, calls, was, floor, base + |data|)
    {
      hide *;
      OutsideBodies();
      EofTurn(whole, p, calls, data, base, i);
      TrackedBody(p, calls, was, floor, base + i, p, base + |data|);
      calls := calls + [Body(base + i, base + |data|)];
    }

    /** One turn of the loop: a part of a body, or a byte. */
    method TakeNext(p: Parser, data: seq<byte>, base: nat, i: nat,
                    ghost whole: Call, ghost was: seq<Event>, ghost floor: nat)
      returns (q: Parser, end: nat, parsed: nat, status: Status)
      requires i < |data| && Loop(whole, p, calls, data, base, i, 0) && Tracked(p, calls, was, floor, base + i)
      modifies this`calls
      ensures i < end <= |data| && (status != Reading && status != Complete ==> CallsIn(calls, was, floor, base + |data|))
      ensures if status == Reading || status == Complete
              then Loop(whole, q, calls, data, base, end, parsed) && Tracked(q, calls, was, floor, base + end)
              else whole == EndOfCall(whole) == Call(q, Joined(calls), end, status)
    {
      hide *;
      LoopSound(whole, p, calls, data, base, i, 0);
      q, end, parsed, status := p, i, 0, Reading;
      if p.state == BodyIdentity {
        q, end, parsed := TakeIdentity(p, data, base, i, whole, was, floor);
      } else if p.state == BodyIdentityEof {
        TakeRest(p, data, base, i, whole, was, floor);
        end := |data|;
      } else if p.state == ChunkData {
        q, end := TakeChunk(p, data, base, i, whole, was, floor);
      } else {
        q, status := TakeByte(p, data, base, i, whole, was, floor);
        end := i + 1;
        if status == Complete { parsed := 1; }
      }
    }

    /** The end of the loop: a body that ends with the stream is over, and the state is saved. */
    method Save(p: Parser, data: seq<byte>, base: nat, i: nat, parsed: nat,
                ghost whole: Call, ghost was: seq<Event>, ghost floor: nat)
      returns (processed: int, status: Status)
      requires Loop(whole, p, calls, data, base, i, parsed) && Tracked(p, calls, was, floor, base + i)
      requires (i == |data| || parsed > 0) && (whole.status == Complete ==> whole.p.state != BodyIdentityEof)
      modifies this
      ensures CallsIn(calls, was, floor, base + |data|)
      ensures EndOfCall(whole) == Call(saved, Joined(calls), i, status) && processed == i
      ensures status == Reading || status == Complete
      ensures Sound(saved, base + i) && MarksOk(saved) && MarksFrom(saved, floor)
    {
      hide *;
      OutsideBodies();
      LoopWithin(whole, p, calls, data, base, i, parsed);
      LoopEnds(whole, p, calls, data, base, i, parsed);
      var q, done := p, parsed;
      if q.state == BodyIdentityEof {
        TrackedComplete(p, calls, was, floor, base + i, Seen(p));
        calls := calls + [MessageComplete(Seen(p))];
        q := p.(state := StartState(p.kind));
        done := parsed + 1;
      }
      TrackedEnds(q, calls, was, floor, base + i, base + |data|);
      saved := q.(index := q.index % 256);
      return i, if done > 0 then Complete else Reading;
    }

    /**
     * A call with data that starts at position base of the stream. It does what one byte after the
     * other does, up to the pieces bodies are handed over in, and saves the state it ends in. All that it
     * hands over starts at a mark or within the data, and ends within the data.
     */
    method ProcessData(data: seq<byte>, base: nat, ghost floor: nat) returns (processed: int, status: Status)
      requires Sound(saved, base) && data != []
      requires MarksOk(saved) && MarksFrom(saved, floor) && floor <= base
      modifies this
      ensures CallsIn(calls, old(calls), floor, base + |data|)
      ensures status == Reading || status == Complete ==> MarksOk(saved) && MarksFrom(saved, floor)
      ensures var c := EndOfCall(Process(old(saved), Joined(old(calls)), data, base));
              && status == c.status && Joined(calls) == c.log
              && processed == (if status == Failed then -1 else c.consumed)
              && (status == Reading || status == Complete ==> saved == c.p && Sound(saved, base + c.consumed))
    {
      hide *;
      ghost var whole := Process(saved, Joined(calls), data, base);
      var i, p, parsed := 0, saved, 0;
      ghost var was := calls;
      CompleteState(saved, Joined(calls), data, base);
      LoopBegins(p, calls, data, base);
      TrackedBegins(p, calls, floor, base);
      while i < |data|
        invariant i <= |data| && saved == old(saved)
        invariant Loop(whole, p, calls, data, base, i, parsed) && Tracked(p, calls, was, floor, base + i)
      {
        if parsed > 0 { break; }
        p, i, parsed, status := TakeNext(p, data, base, i, whole, was, floor);
        if status != Reading && status != Complete { return if status == Failed then -1 else i, status; }
      }
      processed, status := Save(p, data, base, i, parsed, whole, was, floor);
    }
  }
}
