/**
 * Arrivals that replace the buffer under a mark. The parser keeps pointers into the buffer between calls, and
 * nothing moves them along when the buffer is replaced by a larger one: cutting a stream matters there, and
 * only there.
 */
module HttpCuts {
  import opened Common
  import opened HttpTypes
  import opened HttpStep
  import opened HttpRun
  import opened HttpMarks
  import opened HttpStream

  /**
   * Whether a connection can come to dangle shows in where its stream was cut: with no cut inside a target, a
   * field name or a value it does not, whatever the buffers, the locks and the releases.
   */
  lemma CleanCuts(c: Connection)
    requires c.Valid() && forall k :: k in c.cuts && k <= |c.arrived| ==> !EndsInside(c.arrived[..k])
    ensures c.phase != Dangling
  {
    hide FeedAll;
    hide Joined;
    if c.phase == Dangling { MarkedInside(c.arrived[..c.Position()]); }
  }

  /** What a dangling connection told its handlers is what the arrivals in front of the last one call for. */
  lemma ToldBefore(c: Connection)
    requires c.Valid() && c.phase == Dangling
    ensures c.Position() in c.cuts && c.Position() <= |c.arrived| && EndsInside(c.arrived[..c.Position()])
    ensures FeedAll(OPENED, c.arrived[..c.Position()]).log == Joined(c.parser.calls)
  {
    hide FeedAll;
    hide Joined;
    MarkedInside(c.arrived[..c.Position()]);
  }

  /** A connection whose first arrival ends inside a target, a field name or a value. */
  method FirstArrival(http2: bool, holds: nat -> bool, first: seq<byte>) returns (c: Connection)
    requires first != [] && EndsInside(first) && !Waiting(first) && !(PREFACE <= first)
    ensures fresh(c) && fresh(c.parser) && c.Valid() && c.arrived == first && c.phase == Open && c.http2 == http2
    ensures c.buffer != null ==> fresh(c.buffer)
    ensures !c.lock ==> c.Position() == |first| && forall n: nat :: n > 0 ==> c.Replaces(n)
    ensures c.lock ==> exists k :: 0 < k < |first| && FeedAll(OPENED, first[..k]).p.state == StartReq
  {
    hide FeedAll;
    hide Joined;
    hide Waiting;
    hide PREFACE;
    hide CallsIn;
    hide MarksFrom;
    hide HasMark;
    c := new Connection(http2, holds);
    c.OnData(first);
    assert [] + first == first && first[..|first|] == first;
    c.MarksSet();
    if c.lock {
      assert FeedAll(OPENED, first[..c.Position()]).p.state == StartReq;
    }
  }

  /**
   * The first buffer has no room to spare: when the first arrival ends inside a target, a field name or a
   * value, any second one makes the connection dangle, unless a handler holds it up between messages.
   */
  method CutInside(http2: bool, holds: nat -> bool, first: seq<byte>, second: seq<byte>) returns (c: Connection, held: bool)
    requires first != [] && second != [] && EndsInside(first) && !Waiting(first) && !(PREFACE <= first)
    ensures fresh(c) && c.Valid() && c.arrived == first + second && c.http2 == http2
    ensures c.phase == Dangling || held
    ensures held ==> exists k :: 0 < k < |first| && FeedAll(OPENED, first[..k]).p.state == StartReq
  {
    hide FeedAll;
    hide Joined;
    hide Waiting;
    hide PREFACE;
    hide CallsIn;
    hide MarksFrom;
    hide HasMark;
    hide EndsInside;
    c := FirstArrival(http2, holds, first);
    held := c.lock;
    assert first[..|first|] == first;
    c.OnData(second);
  }

  // ---- A request that is cut --------------------------------------------------------------------

  /** Where the first k bytes of a stream take a connection. */
  ghost predicate FedTo(a: seq<byte>, k: nat, p: Parser)
    requires k <= |a|
  {
    var c := FeedAll(OPENED, a[..k]);
    c.status == Reading && c.p == p && c.pos == k
  }

  lemma FedNext(a: seq<byte>, k: nat, p: Parser, q: Parser)
    requires k < |a| && FedTo(a, k, p) && StepByte(p, a[k], k).status == Reading && StepByte(p, a[k], k).p == q
    ensures FedTo(a, k + 1, q)
  {
    hide StepByte;
    hide EmitAll;
    var c := FeedAll(OPENED, a[..k]);
    FeedAllConcat(OPENED, a[..k], [a[k]]);
    assert a[..k] + [a[k]] == a[..k + 1] && [a[k]][1..] == [];
    assert FeedAll(c, [a[k]]) == Feed(c, a[k]);
  }

  lemma FedStart(a: seq<byte>)
    ensures FedTo(a, 0, FRESH)
  {
  }

  /** The parser within a method that is being read as GET, behind it, and in the target. */
  function InGet(k: nat): Parser {
    MessageStart(FRESH).(verb := GET, index := k, state := ReqMethod)
  }

  lemma GetSteps(pos: nat)
    ensures StepByte(FRESH, 71, pos).p == InGet(1) && StepByte(FRESH, 71, pos).status == Reading
    ensures StepByte(InGet(1), 69, pos) == Go(InGet(2)) && StepByte(InGet(2), 84, pos) == Go(InGet(3))
    ensures StepByte(InGet(3), 32, pos) == Go(InGet(4).(state := ReqSpacesBeforeUrl))
  {
  }

  lemma TargetSteps(p: Parser, pos: nat)
    requires p.state == ReqSpacesBeforeUrl
    ensures StepByte(p, 47, pos) == Go(p.(urlMark := Some(pos), state := ReqPath))
    ensures StepByte(p.(state := ReqPath), 97, pos) == Go(p.(state := ReqPath))
  {
  }

  const GET_A: seq<byte> := [71, 69, 84, 32, 47, 97]
  const REST_OF_GET: seq<byte> := [98] + Ascii(" HTTP/1.1\r\n\r\n")

  lemma GetBytes(a: seq<byte>)
    requires a == GET_A
    ensures |a| == 6 && a[0] == 71 && a[1] == 69 && a[2] == 84 && a[3] == 32 && a[4] == 47 && a[5] == 97
  {
  }

  lemma GetStates(p: Parser)
    ensures forall k :: InGet(k).state == ReqMethod
    ensures Go(p).p == p && Go(p).status == Reading
  {
  }

  lemma GetFed(a: seq<byte>)
    requires a == GET_A
    ensures |a| == 6 && FedTo(a, 1, InGet(1)) && FedTo(a, 2, InGet(2)) && FedTo(a, 3, InGet(3))
    ensures var q := InGet(4).(state := ReqSpacesBeforeUrl);
            FedTo(a, 4, q) && FedTo(a, 5, q.(urlMark := Some(4), state := ReqPath))
            && FedTo(a, 6, q.(urlMark := Some(4), state := ReqPath))
  {
    hide *;
    GetBytes(a);
    FedStart(a);
    GetSteps(0);
    FedNext(a, 0, FRESH, InGet(1));
    GetSteps(1);
    GetStates(InGet(2));
    FedNext(a, 1, InGet(1), InGet(2));
    GetSteps(2);
    GetStates(InGet(3));
    FedNext(a, 2, InGet(2), InGet(3));
    GetSteps(3);
    var q := InGet(4).(state := ReqSpacesBeforeUrl);
    var r := q.(urlMark := Some(4), state := ReqPath);
    GetStates(q);
    FedNext(a, 3, InGet(3), q);
    TargetSteps(q, 4);
    GetStates(r);
    FedNext(a, 4, q, r);
    TargetSteps(r.(state := ReqSpacesBeforeUrl), 5);
    FedNext(a, 5, r, r);
  }

  lemma FedState(a: seq<byte>, k: nat, p: Parser)
    requires k <= |a| && FedTo(a, k, p)
    ensures FeedAll(OPENED, a[..k]).p.state == p.state
    ensures k == |a| && p.state == ReqPath ==> EndsInside(a)
  {
    if k == |a| { assert a[..k] == a; }
  }

  /** GET /a ends inside its target, and is within its one message all along. */
  lemma GetInside()
    ensures EndsInside(GET_A) && !Waiting(GET_A) && !(PREFACE <= GET_A)
    ensures forall k :: 0 < k < |GET_A| ==> FeedAll(OPENED, GET_A[..k]).p.state != StartReq
  {
    hide *;
    var a := GET_A;
    GetFed(a);
    NotPreface();
    var q := InGet(4).(state := ReqSpacesBeforeUrl);
    var r := q.(urlMark := Some(4), state := ReqPath);
    GetStates(q);
    FedState(a, 6, r);
    forall k | 0 < k < |a| ensures FeedAll(OPENED, a[..k]).p.state != StartReq {
      FedState(a, k, if k < 4 then InGet(k) else if k == 4 then q else r);
    }
  }

  lemma NotPreface()
    ensures !Waiting(GET_A) && !(PREFACE <= GET_A)
  {
    assert PREFACE[0] == 80 && GET_A[0] == 71;
  }

  /**
   * An input on which the cutting does matter: the same request in one arrival, and cut inside its target. The
   * first connection goes on, the second one dangles.
   */
  method MovedUnderMark(http2: bool, holds: nat -> bool) returns (c: Connection, d: Connection)
    ensures fresh(c) && fresh(d) && c.Valid() && d.Valid()
    ensures c.arrived == d.arrived == GET_A + REST_OF_GET && c.http2 == d.http2
    ensures c.phase != Dangling && d.phase == Dangling
  {
    hide FeedAll;
    hide Joined;
    hide Waiting;
    hide PREFACE;
    hide CallsIn;
    hide MarksFrom;
    hide HasMark;
    hide EndsInside;
    GetInside();
    c := new Connection(http2, holds);
    c.OnData(GET_A + REST_OF_GET);
    assert [] + (GET_A + REST_OF_GET) == GET_A + REST_OF_GET;
    var held;
    d, held := CutInside(http2, holds, GET_A, REST_OF_GET);
  }
}
