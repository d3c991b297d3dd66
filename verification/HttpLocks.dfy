/**
 * Where the messages of a stream end, and what it means that a connection stops reading at the ends at which its
 * handlers hold it.
 */
module HttpLocks {
  import opened Common
  import opened HttpTypes
  import opened HttpStep
  import opened HttpInvariant
  import opened HttpRun

  /** The first k bytes of a stream end with the last byte of a message. */
  ghost predicate EndsAt(s: seq<byte>, k: nat) {
    0 < k <= |s| &&
    var c := FeedAll(OPENED, s[..k - 1]);
    c.status == Reading && StepByte(c.p, s[k - 1], c.pos).status == Complete
  }

  lemma EndsSame(s: seq<byte>, d: seq<byte>, k: nat)
    requires k <= |s|
    ensures EndsAt(s + d, k) <==> EndsAt(s, k)
  {
    hide StepByte;
    hide FeedAll;
    if k > 0 { assert (s + d)[..k - 1] == s[..k - 1]; }
  }

  /** A call of the parser up to any of its bytes but the last goes on, and the last one tells how it ends. */
  lemma CallAt(p: Parser, log: seq<Event>, data: seq<byte>, base: nat, n: nat)
    requires n < Process(p, log, data, base).consumed
    ensures var c, d := Process(p, log, data[..n], base), Process(p, log, data, base);
            && c.status == Reading && c.consumed == n
            && (StepByte(c.p, data[n], base + n).status == if n + 1 < d.consumed then Reading else d.status)
  {
    hide StepByte;
    hide EmitAll;
    hide Process;
    var c, b, rest := Process(p, log, data[..n], base), data[n], data[n + 1..];
    assert data == data[..n] + ([b] + rest);
    ProcessConcat(p, log, data[..n], [b] + rest, base);
    LaterIs(n, Process(c.p, c.log, [b] + rest, base + n));
    if c.status == Reading {
      ProcessStep(c.p, c.log, [b] + rest, base + n);
      var s := StepByte(c.p, b, base + n);
      LaterIs(1, Process(s.p, EmitAll(c.log, s.events), ([b] + rest)[1..], base + n + 1));
      CallLonger(s, c.log, rest, base + n + 1);
      assert ([b] + rest)[1..] == rest;
    }
  }

  lemma CallLonger(s: Step, log: seq<Event>, rest: seq<byte>, base: nat)
    ensures Process(s.p, EmitAll(log, s.events), rest, base).consumed == 0 <==> rest == []
    ensures rest == [] ==> Process(s.p, EmitAll(log, s.events), rest, base).status == Reading
  {
    hide StepByte;
    hide EmitAll;
  }

  /** Within what a call reads no message ends, and at its end one does exactly if the call says so. */
  lemma CallEnds(s: seq<byte>, at: nat, p: Parser, log: seq<Event>, k: nat)
    requires at < k <= |s| && FeedAll(OPENED, s[..at]) == Stream(p, log, at, Reading)
    requires k <= at + Process(p, log, s[at..], at).consumed
    ensures var c := Process(p, log, s[at..], at);
            EndsAt(s, k) <==> k == at + c.consumed && c.status == Complete
  {
    hide StepByte;
    hide FeedAll;
    hide Process;
    var data, n := s[at..], k - 1 - at;
    CallAt(p, log, data, at, n);
    var c := Process(p, log, data[..n], at);
    CallIsFeed(p, log, data[..n], at);
    assert data[..n][..n] == data[..n];
    FeedAllConcat(OPENED, s[..at], data[..n]);
    assert s[..at] + data[..n] == s[..k - 1] && data[n] == s[k - 1];
  }

  // ---- Locks --------------------------------------------------------------------------------------

  /**
   * A connection that was last released at one position and has read up to another has passed no end of a message
   * at which its handler holds it, and it is locked exactly if it is at one.
   */
  ghost predicate Obeys(holds: nat -> bool, s: seq<byte>, from: nat, to: nat, lock: bool) {
    && (forall k :: from < k < to && holds(k) ==> !EndsAt(s, k))
    && (lock <==> from < to && EndsAt(s, to) && holds(to))
  }

  lemma ObeysNothing(holds: nat -> bool, s: seq<byte>, at: nat)
    ensures Obeys(holds, s, at, at, false)
  {
  }

  /** One call further. */
  lemma ObeysNext(holds: nat -> bool, s: seq<byte>, from: nat, at: nat, to: nat, lock: bool)
    requires from <= at < to && Obeys(holds, s, from, at, false)
    requires forall k :: at < k < to ==> !EndsAt(s, k)
    requires lock <==> EndsAt(s, to) && holds(to)
    ensures Obeys(holds, s, from, to, lock)
  {
    hide EndsAt;
  }

  /** More bytes behind what was read change nothing. */
  lemma ObeysMore(holds: nat -> bool, s: seq<byte>, d: seq<byte>, from: nat, to: nat, lock: bool)
    requires to <= |s| && Obeys(holds, s, from, to, lock)
    ensures Obeys(holds, s + d, from, to, lock)
  {
    hide EndsAt;
    EndsSame(s, d, to);
    forall k | from < k < to && holds(k) ensures !EndsAt(s + d, k) { EndsSame(s, d, k); }
  }

  /** The lock, and how far the connection has read when it is locked, follow from the bytes and the last release. */
  lemma LockDecided(holds: nat -> bool, s: seq<byte>, from: nat, to: nat, lock: bool, end: nat, held: bool)
    requires Obeys(holds, s, from, to, lock) && Obeys(holds, s, from, end, held)
    ensures lock && held ==> to == end
    ensures lock ==> end <= to
  {
    hide EndsAt;
  }
}
