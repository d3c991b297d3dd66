/**
 * Frames of the WebSocket protocol (section 5.2 of RFC 6455): the server parses the masked frames of
 * a client as they arrive, unmasking them where they lie, and builds unmasked ones.
 */
module WebSocket {
  import opened Common
  import Bits

  const MAX_PAYLOAD := 16777216
  const MAX_CONTROL := 125

  predicate KnownOpcode(op: nat) {
    op <= 2 || 8 <= op <= 10
  }

  predicate IsControl(op: nat) {
    op / 8 % 2 == 1
  }

  // ---- Masking ----------------------------------------------------------------------------------

  /** Exclusive or. */
  function Xor(a: nat, b: nat): nat
    decreases a + b
  {
    if a == 0 && b == 0 then 0 else 2 * Xor(a / 2, b / 2) + (a + b) % 2
  }

  /** Bit by bit. */
  lemma XorParts(a: nat, b: nat)
    ensures Xor(a, b) / 2 == Xor(a / 2, b / 2) && Xor(a, b) % 2 == (a + b) % 2
  {
  }

  lemma {:induction false} XorTwice(a: nat, b: nat)
    ensures Xor(Xor(a, b), b) == a
    decreases a + b
  {
    if a == 0 && b == 0 {
    } else {
      XorTwice(a / 2, b / 2);
      XorStep(a, b, Xor(a, b), Xor(Xor(a, b), b));
    }
  }

  lemma XorStep(a: nat, b: nat, x: nat, y: nat)
    requires x == Xor(a, b) && y == Xor(x, b) && Xor(Xor(a / 2, b / 2), b / 2) == a / 2
    ensures y == a
  {
    hide Xor;
    XorParts(a, b);
    XorParts(x, b);
    Parity(x, a, b);
    Halves(y, a);
  }

  lemma Parity(x: nat, a: nat, b: nat)
    requires x % 2 == (a + b) % 2
    ensures (x + b) % 2 == a % 2
  {
  }

  lemma Halves(x: nat, y: nat)
    ensures x / 2 == y / 2 && x % 2 == y % 2 ==> x == y
  {
  }

  lemma {:induction false} XorBound(a: nat, b: nat, n: nat)
    requires a < Bits.Shl(1, n) && b < Bits.Shl(1, n)
    ensures Xor(a, b) < Bits.Shl(1, n)
    decreases n
  {
    if n > 0 && (a != 0 || b != 0) {
      ShlTwice(n - 1);
      XorBound(a / 2, b / 2, n - 1);
    }
  }

  lemma ShlTwice(n: nat)
    ensures Bits.Shl(1, n + 1) == 2 * Bits.Shl(1, n)
  {
  }

  function XorByte(a: byte, b: byte): (r: byte)
    ensures r < 256
  {
    XorBound(a, b, 8);
    assert Bits.Shl(1, 8) == 256;
    Xor(a, b)
  }

  /** A payload masked with a key of four bytes. */
  function Masked(payload: seq<byte>, key: seq<byte>): (m: seq<byte>)
    requires |key| == 4
    ensures |m| == |payload|
  {
    seq(|payload|, i requires 0 <= i < |payload| => XorByte(payload[i], key[i % 4]))
  }

  /** Masking is its own inverse. */
  lemma MaskedTwice(payload: seq<byte>, key: seq<byte>)
    requires |key| == 4
    ensures Masked(Masked(payload, key), key) == payload
  {
    forall i | 0 <= i < |payload| ensures Masked(Masked(payload, key), key)[i] == payload[i] {
      XorTwice(payload[i], key[i % 4]);
    }
  }

  /** Each bit of an exclusive or is set when the two bits differ. */
  lemma {:induction false} XorBits(a: nat, b: nat, k: nat)
    ensures Bits.Shr(Xor(a, b), k) % 2 == (if Bits.Shr(a, k) % 2 != Bits.Shr(b, k) % 2 then 1 else 0)
    decreases k
  {
    XorParts(a, b);
    if k == 0 {
      Differ(a, b);
    } else {
      Bits.ShrStep(Xor(a, b), k - 1);
      Bits.ShrStep(a, k - 1);
      Bits.ShrStep(b, k - 1);
      XorBits(a / 2, b / 2, k - 1);
    }
  }

  lemma Differ(a: nat, b: nat)
    ensures (a + b) % 2 == if a % 2 != b % 2 then 1 else 0
    ensures Bits.Shr(a, 0) == a
  {
  }

  lemma {:induction false} XorZero(b: nat)
    ensures Xor(0, b) == b
    decreases b
  {
    if b > 0 { XorZero(b / 2); }
  }

  lemma MaskedAt(payload: seq<byte>, key: seq<byte>, i: nat)
    requires |key| == 4 && i < |payload|
    ensures Masked(payload, key)[i] == XorByte(payload[i], key[i % 4])
  {
  }

  /** Nothing masked is the key. */
  lemma MaskedNothing(key: seq<byte>)
    requires |key| == 4
    ensures Masked([0, 0, 0, 0], key) == key
  {
    hide Masked;
    hide Xor;
    var zeros: seq<byte> := [0, 0, 0, 0];
    forall i | 0 <= i < 4 ensures Masked(zeros, key)[i] == key[i] {
      MaskedAt(zeros, key, i);
      XorZero(key[i]);
    }
  }

  /** The key starts over behind every fourth byte, */
  lemma MaskedConcat(a: seq<byte>, b: seq<byte>, key: seq<byte>)
    requires |key| == 4 && |a| % 4 == 0
    ensures Masked(a + b, key) == Masked(a, key) + Masked(b, key)
  {
    hide Masked;
    hide XorByte;
    forall i | 0 <= i < |a + b| ensures Masked(a + b, key)[i] == (Masked(a, key) + Masked(b, key))[i] {
      MaskedAt(a + b, key, i);
      if i < |a| { MaskedAt(a, key, i); } else { MaskedAt(b, key, i - |a|); }
    }
  }

  /** and what was masked does not depend on what follows. */
  lemma MaskedPrefix(a: seq<byte>, n: nat, key: seq<byte>)
    requires |key| == 4 && n <= |a|
    ensures Masked(a[..n], key) == Masked(a, key)[..n]
  {
  }

  /** Up to four bytes are masked with the first of the key, one with each, bit by bit. */
  lemma MaskedBits(payload: seq<byte>, key: seq<byte>, i: nat, k: nat)
    requires |key| == 4 && |payload| <= 4 && i < |payload|
    ensures Bits.Shr(Masked(payload, key)[i], k) % 2 ==
            (if Bits.Shr(payload[i], k) % 2 != Bits.Shr(key[i], k) % 2 then 1 else 0)
  {
    XorBits(payload[i], key[i], k);
  }

  // ---- Numbers in network order -----------------------------------------------------------------

  function BigEndian(v: nat, n: nat): (s: seq<byte>)
    ensures |s| == n
  {
    if n == 0 then [] else BigEndian(v / 256, n - 1) + [v % 256]
  }

  function Number(s: seq<byte>): nat {
    if s == [] then 0 else 256 * Number(s[..|s| - 1]) + s[|s| - 1]
  }

  function Power(n: nat): (r: nat)
    ensures r >= 1
  {
    if n == 0 then 1 else 256 * Power(n - 1)
  }

  lemma {:induction false} NumberOfBigEndian(v: nat, n: nat)
    requires v < Power(n)
    ensures Number(BigEndian(v, n)) == v
    decreases n
  {
    if n > 0 {
      NumberOfBigEndian(v / 256, n - 1);
      assert BigEndian(v, n)[..n - 1] == BigEndian(v / 256, n - 1);
    }
  }

  lemma {:induction false} BigEndianOfNumber(s: seq<byte>)
    ensures BigEndian(Number(s), |s|) == s && Number(s) < Power(|s|)
    decreases |s|
  {
    if s != [] {
      BigEndianOfNumber(s[..|s| - 1]);
      assert s == s[..|s| - 1] + [s[|s| - 1]];
    }
  }

  /** The first bytes weigh most. */
  lemma {:induction false} NumberConcat(a: seq<byte>, b: seq<byte>)
    ensures Number(a + b) == Number(a) * Power(|b|) + Number(b)
    decreases |b|
  {
    if b == [] {
      assert a + b == a;
    } else {
      var n := |b| - 1;
      assert (a + b)[..|a + b| - 1] == a + b[..n];
      NumberConcat(a, b[..n]);
      assert 256 * (Number(a) * Power(n)) == Number(a) * (256 * Power(n));
    }
  }

  // ---- Frames on the wire -----------------------------------------------------------------------

  /** What may be sent in one frame. */
  predicate Allowed(op: nat, fin: bool, size: nat) {
    KnownOpcode(op) && size <= MAX_PAYLOAD && (IsControl(op) ==> fin && size <= MAX_CONTROL)
  }

  /** The smallest of the three forms that holds a length. */
  function LengthField(n: nat): (s: seq<byte>)
    requires n <= MAX_PAYLOAD
    ensures |s| == (if n <= 125 then 1 else if n <= 65535 then 3 else 9)
    ensures s[0] == (if n <= 125 then n else if n <= 65535 then 126 else 127)
  {
    if n <= 125 then [n] else if n <= 65535 then [126] + BigEndian(n, 2) else [127] + BigEndian(n, 8)
  }

  function FirstByte(op: nat, fin: bool): byte {
    (if fin then 128 else 0) + op % 16
  }

  /** The frame a server sends. */
  function ServerForm(op: nat, fin: bool, payload: seq<byte>): seq<byte>
    requires |payload| <= MAX_PAYLOAD
  {
    [FirstByte(op, fin)] + LengthField(|payload|) + payload
  }

  /** The size of the header of a frame by its second byte, without the key. */
  function HeaderSize(second: byte): nat {
    if second % 128 == 126 then 4 else if second % 128 == 127 then 10 else 2
  }

  /** A frame of a server made one of a client: the mask flag, the key, and the payload masked. */
  function ClientForm(f: seq<byte>, key: seq<byte>): seq<byte>
    requires |key| == 4 && |f| >= 2 && f[1] < 128 && HeaderSize(f[1]) <= |f|
  {
    var n := HeaderSize(f[1]);
    [f[0], f[1] + 128] + f[2..n] + key + Masked(f[n..], key)
  }

  /** The same, field by field. */
  function Wire(op: nat, fin: bool, key: seq<byte>, payload: seq<byte>): seq<byte>
    requires |payload| <= MAX_PAYLOAD && |key| == 4
  {
    var field := LengthField(|payload|);
    [FirstByte(op, fin), field[0] + 128] + field[1..] + key + Masked(payload, key)
  }

  lemma WireIsClientForm(op: nat, fin: bool, key: seq<byte>, payload: seq<byte>)
    requires |payload| <= MAX_PAYLOAD && |key| == 4
    ensures var f := ServerForm(op, fin, payload);
            && |f| >= 2 && f[1] < 128 && HeaderSize(f[1]) <= |f|
            && ClientForm(f, key) == Wire(op, fin, key, payload)
  {
    var f, field := ServerForm(op, fin, payload), LengthField(|payload|);
    assert f[1] == field[0] && HeaderSize(f[1]) == 1 + |field|;
    assert f[2..1 + |field|] == field[1..];
    assert f[1 + |field|..] == payload;
  }

  // ---- Parsing ----------------------------------------------------------------------------------

  datatype Error =
    | ReservedBits | UnknownOpcode | Unmasked | NotMinimal | TooLarge | FragmentedControl | LargeControl

  /** Incomplete: more bytes are needed. Complete: the payload lies behind the first start bytes. */
  datatype Parsed =
    | Incomplete
    | Invalid(error: Error)
    | Complete(fin: bool, opcode: nat, key: seq<byte>, start: nat, length: nat)

  datatype Sizing = Missing | Wasteful | Sized(length: nat, offset: nat)

  /** The length of the payload, and where the key starts. */
  function Size(buf: seq<byte>): Sizing
    requires |buf| >= 2
  {
    if buf[1] % 128 == 126 then
      if |buf| < 4 then Missing
      else if Number(buf[2..4]) < 126 then Wasteful
      else Sized(Number(buf[2..4]), 4)
    else if buf[1] % 128 == 127 then
      if |buf| < 10 then Missing
      else if Number(buf[2..10]) <= 65535 then Wasteful
      else Sized(Number(buf[2..10]), 10)
    else Sized(buf[1] % 128, 2)
  }

  /** The key and the payload of a frame whose header is in order. */
  function DecodeRest(buf: seq<byte>, fin: bool, op: nat, length: nat, offset: nat): Parsed {
    if length > MAX_PAYLOAD then Invalid(TooLarge)
    else if IsControl(op) && !fin then Invalid(FragmentedControl)
    else if IsControl(op) && length > MAX_CONTROL then Invalid(LargeControl)
    else if |buf| < offset + 4 + length then Incomplete
    else Complete(fin, op, buf[offset..offset + 4], offset + 4, length)
  }

  function Decode(buf: seq<byte>): Parsed {
    if |buf| < 2 then Incomplete
    else if buf[0] / 16 % 8 != 0 then Invalid(ReservedBits)
    else if !KnownOpcode(buf[0] % 16) then Invalid(UnknownOpcode)
    else if buf[1] < 128 then Invalid(Unmasked)
    else
      match Size(buf)
      case Missing => Incomplete
      case Wasteful => Invalid(NotMinimal)
      case Sized(length, offset) => DecodeRest(buf, buf[0] >= 128, buf[0] % 16, length, offset)
  }

  // ---- What is accepted -------------------------------------------------------------------------

  lemma SizeOfField(buf: seq<byte>, n: nat)
    requires n <= MAX_PAYLOAD && |buf| >= 1 + |LengthField(n)|
    requires buf[1] == LengthField(n)[0] + 128 && buf[2..1 + |LengthField(n)|] == LengthField(n)[1..]
    ensures Size(buf) == Sized(n, 1 + |LengthField(n)|)
  {
    if 125 < n <= 65535 {
      assert Power(2) == 65536;
      NumberOfBigEndian(n, 2);
      assert LengthField(n)[1..] == BigEndian(n, 2);
    } else if n > 65535 {
      PowerEight();
      NumberOfBigEndian(n, 8);
      assert LengthField(n)[1..] == BigEndian(n, 8);
    }
  }

  lemma PowerEight()
    ensures Power(8) > MAX_PAYLOAD
  {
    assert Power(4) == 256 * 256 * 256 * 256;
    assert Power(8) == 256 * 256 * 256 * 256 * Power(4);
  }

  lemma FieldOfSize(buf: seq<byte>)
    requires |buf| >= 2 && buf[1] >= 128 && Size(buf).Sized? && Size(buf).length <= MAX_PAYLOAD
    ensures var n := Size(buf).length;
            && Size(buf).offset == 1 + |LengthField(n)| <= |buf|
            && buf[1] == LengthField(n)[0] + 128 && buf[2..Size(buf).offset] == LengthField(n)[1..]
  {
    if buf[1] % 128 == 126 {
      assert Power(2) == 65536;
      BigEndianOfNumber(buf[2..4]);
    } else if buf[1] % 128 == 127 {
      BigEndianOfNumber(buf[2..10]);
    }
  }

  /** A decision once taken is not changed by the bytes that follow. */
  lemma DecodeStable(buf: seq<byte>, more: seq<byte>)
    requires Decode(buf) != Incomplete
    ensures Decode(buf + more) == Decode(buf)
  {
    var all := buf + more;
    assert all[0] == buf[0] && all[1] == buf[1];
    if |buf| >= 4 { assert all[2..4] == buf[2..4]; }
    if |buf| >= 10 { assert all[2..10] == buf[2..10]; }
    if buf[0] / 16 % 8 == 0 && KnownOpcode(buf[0] % 16) && buf[1] >= 128 && Size(buf).Sized? {
      var offset := Size(buf).offset;
      assert Size(all) == Size(buf);
      if |buf| >= offset + 4 { assert all[offset..offset + 4] == buf[offset..offset + 4]; }
    }
  }

  lemma FirstByteFields(op: nat, fin: bool)
    requires KnownOpcode(op)
    ensures var b := FirstByte(op, fin); b / 16 % 8 == 0 && b % 16 == op && (b >= 128 <==> fin)
  {
  }

  /** The header of a frame within a buffer that is at least as long as it. */
  lemma HeaderDecodes(buf: seq<byte>, op: nat, fin: bool, n: nat)
    requires Allowed(op, fin, n) && |buf| >= 1 + |LengthField(n)|
    requires buf[0] == FirstByte(op, fin) && buf[1] == LengthField(n)[0] + 128
    requires buf[2..1 + |LengthField(n)|] == LengthField(n)[1..]
    ensures Decode(buf) == DecodeRest(buf, fin, op, n, 1 + |LengthField(n)|)
  {
    hide Size;
    hide LengthField;
    hide DecodeRest;
    SizeOfField(buf, n);
    FirstByteFields(op, fin);
  }

  lemma WireParts(op: nat, fin: bool, key: seq<byte>, payload: seq<byte>)
    requires |payload| <= MAX_PAYLOAD && |key| == 4
    ensures var w, n := Wire(op, fin, key, payload), 1 + |LengthField(|payload|)|;
            && |w| == n + 4 + |payload|
            && w[0] == FirstByte(op, fin) && w[1] == LengthField(|payload|)[0] + 128
            && w[2..n] == LengthField(|payload|)[1..]
            && w[n..n + 4] == key && w[n + 4..] == Masked(payload, key)
  {
  }

  /** A frame in the form of a client parses back, whatever follows it, and unmasks to its payload. */
  lemma FrameRoundTrip(op: nat, fin: bool, key: seq<byte>, payload: seq<byte>, rest: seq<byte>)
    requires Allowed(op, fin, |payload|) && |key| == 4
    ensures var f := ServerForm(op, fin, payload);
            && |f| >= 2 && f[1] < 128 && HeaderSize(f[1]) <= |f|
            && var w := ClientForm(f, key);
               var start := |w| - |payload|;
               && start >= 0
               && Decode(w + rest) == Complete(fin, op, key, start, |payload|)
               && Masked((w + rest)[start..start + |payload|], key) == payload
  {
    hide LengthField;
    hide Masked;
    WireIsClientForm(op, fin, key, payload);
    WireParts(op, fin, key, payload);
    MaskedTwice(payload, key);
    var w, n := Wire(op, fin, key, payload), 1 + |LengthField(|payload|)|;
    var all := w + rest;
    assert all[2..n] == w[2..n] && all[n..n + 4] == w[n..n + 4];
    assert all[n + 4..n + 4 + |payload|] == w[n + 4..];
    HeaderDecodes(all, op, fin, |payload|);
  }

  /** As long as a byte of such a frame is missing nothing is decided, and nothing is wrong. */
  lemma PrefixIncomplete(op: nat, fin: bool, key: seq<byte>, payload: seq<byte>, k: nat)
    requires Allowed(op, fin, |payload|) && |key| == 4 && k < |Wire(op, fin, key, payload)|
    ensures Decode(Wire(op, fin, key, payload)[..k]) == Incomplete
  {
    hide Size;
    hide Masked;
    hide DecodeRest;
    var w, n := Wire(op, fin, key, payload), 1 + |LengthField(|payload|)|;
    var buf := w[..k];
    WireParts(op, fin, key, payload);
    FirstByteFields(op, fin);
    if k >= n {
      assert buf[2..n] == w[2..n];
      HeaderDecodes(buf, op, fin, |payload|);
      RestIncomplete(buf, op, fin, |payload|, n);
    } else if k >= 2 {
      SizeMissing(buf, |payload|);
    }
  }

  lemma RestIncomplete(buf: seq<byte>, op: nat, fin: bool, n: nat, offset: nat)
    requires Allowed(op, fin, n) && |buf| < offset + 4 + n
    ensures DecodeRest(buf, fin, op, n, offset) == Incomplete
  {
  }

  lemma SizeMissing(buf: seq<byte>, n: nat)
    requires n <= MAX_PAYLOAD && 2 <= |buf| < 1 + |LengthField(n)| && buf[1] == LengthField(n)[0] + 128
    ensures Size(buf) == Missing
  {
  }

  lemma FirstByteOf(b: byte)
    requires b / 16 % 8 == 0
    ensures b == FirstByte(b % 16, b >= 128)
  {
  }

  /** What a complete frame says of the header it was read from. */
  lemma AcceptedHeader(buf: seq<byte>)
    requires Decode(buf).Complete?
    ensures |buf| >= 2 && buf[0] / 16 % 8 == 0 && buf[1] >= 128 && Size(buf).Sized?
    ensures var f, offset := Decode(buf), Size(buf).offset;
            && f.length == Size(buf).length && f.start == offset + 4
            && f.start + f.length <= |buf| && f.key == buf[offset..f.start]
            && f.opcode == buf[0] % 16 && (f.fin <==> buf[0] >= 128) && Allowed(f.opcode, f.fin, f.length)
  {
    hide Size;
  }

  lemma Cut(buf: seq<byte>, offset: nat, start: nat, end: nat)
    requires 2 <= offset <= start <= end <= |buf|
    ensures buf[..end] == [buf[0], buf[1]] + buf[2..offset] + buf[offset..start] + buf[start..end]
  {
  }

  /** Only frames that are allowed are accepted, and only as they stand on the wire. */
  lemma AcceptedIsWire(buf: seq<byte>)
    requires Decode(buf).Complete?
    ensures var f := Decode(buf);
            && f.start + f.length <= |buf| && |f.key| == 4 && Allowed(f.opcode, f.fin, f.length)
            && var payload := Masked(buf[f.start..f.start + f.length], f.key);
               buf[..f.start + f.length] == Wire(f.opcode, f.fin, f.key, payload)
  {
    AcceptedHeader(buf);
    hide Masked;
    hide Size;
    hide Decode;
    hide LengthField;
    hide FirstByte;
    var f := Decode(buf);
    FieldOfSize(buf);
    FirstByteOf(buf[0]);
    MaskedTwice(buf[f.start..f.start + f.length], f.key);
    Cut(buf, Size(buf).offset, f.start, f.start + f.length);
  }

  // ---- What is refused --------------------------------------------------------------------------

  /** The two bytes and the length that a frame of a client starts with. */
  function HeaderOf(op: nat, fin: bool, n: nat): seq<byte>
    requires n <= MAX_PAYLOAD
  {
    [FirstByte(op, fin), LengthField(n)[0] + 128] + LengthField(n)[1..]
  }

  ghost predicate StartsAllowed(buf: seq<byte>) {
    exists op: nat, fin: bool, n: nat :: Allowed(op, fin, n) && HeaderOf(op, fin, n) <= buf
  }

  /** Once the length is there, exactly what does not start like a frame that is allowed is refused. */
  lemma RefusedExactly(buf: seq<byte>)
    requires |buf| >= 2 && |buf| >= HeaderSize(buf[1])
    ensures Decode(buf).Invalid? <==> !StartsAllowed(buf)
  {
    hide LengthField;
    hide FirstByte;
    if StartsAllowed(buf) {
      var op: nat, fin: bool, n: nat :| Allowed(op, fin, n) && HeaderOf(op, fin, n) <= buf;
      var head, size := HeaderOf(op, fin, n), 1 + |LengthField(n)|;
      assert buf[0] == head[0] && buf[1] == head[1] && buf[2..size] == head[2..];
      HeaderDecodes(buf, op, fin, n);
    }
    if !Decode(buf).Invalid? {
      var n, op, fin := Size(buf).length, buf[0] % 16, buf[0] >= 128;
      FieldOfSize(buf);
      FirstByteOf(buf[0]);
      assert HeaderOf(op, fin, n) == buf[..Size(buf).offset];
      assert Allowed(op, fin, n);
    }
  }

  /** While bytes of the length are missing, a frame is refused for its first byte or for not being masked. */
  lemma RefusedEarly(buf: seq<byte>)
    requires 2 <= |buf| < HeaderSize(buf[1])
    ensures Decode(buf) == Incomplete || Decode(buf).Invalid?
    ensures Decode(buf).Invalid? <==>
            buf[1] < 128 || !exists op: nat, fin: bool :: KnownOpcode(op) && buf[0] == FirstByte(op, fin)
  {
    if Decode(buf) == Incomplete { FirstByteOf(buf[0]); }
  }

  /** The opcodes of section 5.2 of RFC 6455, the limit of section 5.5 on control frames, and that of the server. */
  lemma AllowedExactly(op: nat, fin: bool, size: nat)
    ensures Allowed(op, fin, size) <==>
            (op in {0, 1, 2} && size <= 0x1000000) || (op in {8, 9, 10} && fin && size <= 125)
  {
  }

  lemma XorNext(a: nat, b: nat)
    ensures Xor(a, b) == 2 * Xor(a / 2, b / 2) + (a + b) % 2
  {
  }

  lemma XorOnes()
    ensures Xor(0, 0) == 0 && Xor(0, 1) == 1 && Xor(1, 0) == 1 && Xor(1, 1) == 0
  {
  }

  lemma XorFirst()
    ensures Xor(127, 55) == 72
  {
    hide Xor;
    XorOnes();
    XorNext(3, 1);
    XorNext(7, 3);
    XorNext(15, 6);
    XorNext(31, 13);
    XorNext(63, 27);
    XorNext(127, 55);
  }

  lemma XorSecond()
    ensures Xor(159, 250) == 101
  {
    hide Xor;
    XorOnes();
    XorNext(2, 3);
    XorNext(4, 7);
    XorNext(9, 15);
    XorNext(19, 31);
    XorNext(39, 62);
    XorNext(79, 125);
    XorNext(159, 250);
  }

  lemma XorThird()
    ensures Xor(77, 33) == 108
  {
    hide Xor;
    XorOnes();
    XorNext(2, 1);
    XorNext(4, 2);
    XorNext(9, 4);
    XorNext(19, 8);
    XorNext(38, 16);
    XorNext(77, 33);
  }

  lemma XorFourth()
    ensures Xor(81, 61) == 108
  {
    hide Xor;
    XorOnes();
    XorNext(2, 1);
    XorNext(5, 3);
    XorNext(10, 7);
    XorNext(20, 15);
    XorNext(40, 30);
    XorNext(81, 61);
  }

  lemma XorFifth()
    ensures Xor(88, 55) == 111
  {
    hide Xor;
    XorOnes();
    XorNext(2, 1);
    XorNext(5, 3);
    XorNext(11, 6);
    XorNext(22, 13);
    XorNext(44, 27);
    XorNext(88, 55);
  }

  lemma ExampleParsed(frame: seq<byte>)
    requires frame == [129, 133, 55, 250, 33, 61, 127, 159, 77, 81, 88]
    ensures Decode(frame) == Complete(true, 1, [55, 250, 33, 61], 6, 5)
    ensures frame[6..] == [127, 159, 77, 81, 88]
  {
    assert frame[2..6] == [55, 250, 33, 61];
  }

  lemma BigEndianNext(v: nat, n: nat)
    ensures BigEndian(v, n + 1) == BigEndian(v / 256, n) + [v % 256] && BigEndian(v, 0) == []
  {
  }

  lemma ExampleLengths()
    ensures LengthField(256) == [0x7e, 0x01, 0x00]
    ensures LengthField(65536) == [0x7f, 0, 0, 0, 0, 0, 1, 0, 0]
  {
    hide BigEndian;
    for n := 0 to 5
      invariant BigEndian(0, n) == seq(n, _ => 0)
    {
      BigEndianNext(0, n);
      assert seq(n + 1, _ => 0) == seq(n, _ => 0) + [0];
    }
    BigEndianNext(0, 0);
    BigEndianNext(1, 1);
    BigEndianNext(256, 1);
    BigEndianNext(1, 0);
    BigEndianNext(1, 5);
    BigEndianNext(256, 6);
    BigEndianNext(65536, 7);
  }

  lemma ExampleForms()
    ensures ServerForm(1, true, Ascii("Hello")) == [0x81, 0x05, 0x48, 0x65, 0x6c, 0x6c, 0x6f]
    ensures ServerForm(1, false, Ascii("Hel")) == [0x01, 0x03, 0x48, 0x65, 0x6c]
  {
    assert Ascii("Hello") == [72, 101, 108, 108, 111];
    assert Ascii("Hel") == [72, 101, 108];
  }

  lemma ExampleUnmasked()
    ensures Masked([127, 159, 77, 81, 88], [55, 250, 33, 61]) == [72, 101, 108, 108, 111]
  {
    hide Xor;
    XorFirst();
    XorSecond();
    XorThird();
    XorFourth();
    XorFifth();
  }

  /** The frames of section 5.7 of RFC 6455. */
  lemma Examples()
    ensures var frame: seq<byte> := [0x81, 0x85, 0x37, 0xfa, 0x21, 0x3d, 0x7f, 0x9f, 0x4d, 0x51, 0x58];
            && Decode(frame) == Complete(true, 1, [0x37, 0xfa, 0x21, 0x3d], 6, 5)
            && Masked(frame[6..], [0x37, 0xfa, 0x21, 0x3d]) == [0x48, 0x65, 0x6c, 0x6c, 0x6f]
    ensures ServerForm(1, true, Ascii("Hello")) == [0x81, 0x05, 0x48, 0x65, 0x6c, 0x6c, 0x6f]
    ensures ServerForm(1, false, Ascii("Hel")) == [0x01, 0x03, 0x48, 0x65, 0x6c]
    ensures LengthField(256) == [0x7e, 0x01, 0x00]
    ensures LengthField(65536) == [0x7f, 0, 0, 0, 0, 0, 1, 0, 0]
  {
    hide *;
    ExampleParsed([0x81, 0x85, 0x37, 0xfa, 0x21, 0x3d, 0x7f, 0x9f, 0x4d, 0x51, 0x58]);
    ExampleUnmasked();
    ExampleForms();
    ExampleLengths();
  }
}
