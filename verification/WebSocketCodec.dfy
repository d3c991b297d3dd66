/**
 * The framing of the WebSocket protocol as the source does it: parsing unmasks in place, building
 * fills a new buffer, and the reason of a close frame is cut to what fits without breaking a
 * character of UTF-8.
 */
module WebSocketCodec {
  import opened Common
  import Bits
  import opened WebSocket

  // ---- Parsing ----------------------------------------------------------------------------------

  lemma NumberNext(s: seq<byte>, b: byte)
    ensures Number(s + [b]) == 256 * Number(s) + b
  {
    assert (s + [b])[..|s|] == s;
  }

  /** Reads the extended forms of the length, byte by byte in network order. */
  method ReadNumber(buffer: array<byte>, from: nat, count: nat) returns (value: nat)
    requires from + count <= buffer.Length
    ensures value == Number(buffer[from..from + count])
  {
    value := 0;
    var index := 0;
    while index < count
      invariant index <= count && value == Number(buffer[from..from + index])
    {
      NumberNext(buffer[from..from + index], buffer[from + index]);
      assert buffer[from..from + index + 1] == buffer[from..from + index] + [buffer[from + index]];
      value := 256 * value + buffer[from + index];
      index := index + 1;
    }
  }

  /** Masks a part of a buffer where it lies. */
  method MaskInPlace(buffer: array<byte>, from: nat, count: nat, key: seq<byte>)
    requires from + count <= buffer.Length && |key| == 4
    modifies buffer
    ensures Written(buffer[..], old(buffer[..]), from, Masked(old(buffer[from..from + count]), key))
    ensures forall i :: 0 <= i < count ==> buffer[from + i] == XorByte(old(buffer[from + i]), key[i % 4])
  {
    var index := 0;
    while index < count
      invariant index <= count
      invariant forall i :: 0 <= i < buffer.Length && !(from <= i < from + index) ==> buffer[i] == old(buffer[i])
      invariant forall i :: 0 <= i < index ==> buffer[from + i] == XorByte(old(buffer[from + i]), key[i % 4])
    {
      buffer[from + index] := XorByte(buffer[from + index], key[index % 4]);
      index := index + 1;
    }
    assert buffer[from..from + count] == Masked(old(buffer[from..from + count]), key);
  }

  /** The length of the payload, from as much of the header as there is. */
  method ParseSize(buffer: array<byte>, size: nat) returns (sizing: Sizing)
    requires 2 <= size <= buffer.Length
    ensures sizing == Size(buffer[..size])
  {
    hide Number;
    ghost var buf := buffer[..size];
    var offset, payloadSize: nat := 2, buffer[1] % 128;
    if payloadSize == 126 {
      if size < offset + 2 { return Missing; }
      payloadSize := ReadNumber(buffer, 2, 2);
      assert buffer[2..4] == buf[2..4];
      offset := offset + 2;
      if payloadSize < 126 { return Wasteful; }
    } else if payloadSize == 127 {
      if size < offset + 8 { return Missing; }
      payloadSize := ReadNumber(buffer, 2, 8);
      assert buffer[2..10] == buf[2..10];
      offset := offset + 8;
      if payloadSize <= 65535 { return Wasteful; }
    }
    return Sized(payloadSize, offset);
  }

  /** The key and the payload behind a header that is in order so far. */
  method ParseRest(buffer: array<byte>, size: nat, fin: bool, opcode: nat, payloadSize: nat, start: nat)
    returns (parsed: Parsed)
    requires size <= buffer.Length
    modifies buffer
    ensures parsed == DecodeRest(old(buffer[..size]), fin, opcode, payloadSize, start)
    ensures !parsed.Complete? ==> buffer[..] == old(buffer[..])
    ensures parsed.Complete? ==> parsed.start + parsed.length <= size && |parsed.key| == 4
    ensures parsed.Complete? ==>
              Written(buffer[..], old(buffer[..]), parsed.start,
                      Masked(old(buffer[parsed.start..parsed.start + parsed.length]), parsed.key))
  {
    hide Masked;
    hide Written;
    var offset := start;
    if payloadSize > MAX_PAYLOAD { return Invalid(TooLarge); }
    if IsControl(opcode) {
      if !fin { return Invalid(FragmentedControl); }
      if payloadSize > MAX_CONTROL { return Invalid(LargeControl); }
    }
    if size < offset + 4 { return Incomplete; }
    var key := buffer[offset..offset + 4];
    assert key == buffer[..size][offset..offset + 4];
    offset := offset + 4;
    if size < offset + payloadSize { return Incomplete; }
    MaskInPlace(buffer, offset, payloadSize, key);
    return Complete(fin, opcode, key, offset, payloadSize);
  }

  /**
   * Parses the frame at the start of the first size bytes of a buffer. Unless it is complete the
   * buffer is left alone; the payload of a complete one is unmasked where it lies.
   */
  method ParseFrame(buffer: array<byte>, size: nat) returns (parsed: Parsed)
    requires size <= buffer.Length
    modifies buffer
    ensures parsed == Decode(old(buffer[..size]))
    ensures !parsed.Complete? ==> buffer[..] == old(buffer[..])
    ensures parsed.Complete? ==> parsed.start + parsed.length <= size && |parsed.key| == 4
    ensures parsed.Complete? ==>
              Written(buffer[..], old(buffer[..]), parsed.start,
                      Masked(old(buffer[parsed.start..parsed.start + parsed.length]), parsed.key))
  {
    hide Size;
    hide DecodeRest;
    hide Written;
    hide Masked;
    if size < 2 { return Incomplete; }
    var fin, opcode := buffer[0] >= 128, buffer[0] % 16;
    if buffer[0] / 16 % 8 != 0 { return Invalid(ReservedBits); }
    if opcode != 0 && opcode != 1 && opcode != 2 && opcode != 8 && opcode != 9 && opcode != 10 {
      return Invalid(UnknownOpcode);
    }
    if buffer[1] < 128 { return Invalid(Unmasked); }
    var sizing := ParseSize(buffer, size);
    match sizing {
      case Missing => return Incomplete;
      case Wasteful => return Invalid(NotMinimal);
      case Sized(payloadSize, offset) => parsed := ParseRest(buffer, size, fin, opcode, payloadSize, offset);
    }
  }

  // ---- Building ---------------------------------------------------------------------------------

  lemma ShiftHalf(v: nat)
    ensures Bits.Shr(v, 4) == v / 16
  {
    Bits.ShrStep(v, 0);
    Bits.ShrStep(v, 1);
    Bits.ShrStep(v, 2);
    Bits.ShrStep(v, 3);
  }

  lemma ShiftByte(v: nat)
    ensures Bits.Shr(v, 8) == v / 256
  {
    ShiftHalf(v);
    ShiftHalf(v / 16);
    Bits.ShrShr(v, 4, 4);
  }

  /** The bytes of a number in network order are its shifted values. */
  lemma {:induction false} BigEndianAt(v: nat, n: nat, i: nat)
    requires i < n
    ensures BigEndian(v, n)[i] == Bits.Shr(v, 8 * (n - 1 - i)) % 256
    decreases n
  {
    if i < n - 1 {
      BigEndianAt(v / 256, n - 1, i);
      Bits.ShrShr(v, 8, 8 * (n - 2 - i));
      ShiftByte(v);
    }
  }

  /** Writes the bytes of a number in network order. */
  method WriteNumber(buffer: array<byte>, from: nat, count: nat, value: nat)
    requires from + count <= buffer.Length
    modifies buffer
    ensures Written(buffer[..], old(buffer[..]), from, BigEndian(value, count))
  {
    var index := 0;
    while index < count
      invariant index <= count
      invariant Written(buffer[..], old(buffer[..]), from, BigEndian(value, count)[..index])
    {
      BigEndianAt(value, count, index);
      WrittenNext(buffer[..], old(buffer[..]), from, BigEndian(value, count)[..index], BigEndian(value, count)[index]);
      assert BigEndian(value, count)[..index] + [BigEndian(value, count)[index]] == BigEndian(value, count)[..index + 1];
      ghost var was := buffer[..];
      buffer[from + index] := Bits.Shr(value, (count - 1 - index) * 8) % 256;
      assert buffer[..] == was[from + index := BigEndian(value, count)[index]];
      index := index + 1;
    }
    assert BigEndian(value, count)[..index] == BigEndian(value, count);
  }

  /** A number behind the byte that says how long it is. */
  lemma WrittenBoth(now: seq<byte>, mid: seq<byte>, was: seq<byte>, b: byte, out: seq<byte>)
    requires |was| > 1 && mid == was[1 := b] && Written(now, mid, 2, out)
    ensures Written(now, was, 1, [b] + out)
  {
    assert now[..2] == mid[..2];
    assert now[1..2 + |out|] == [b] + out;
    assert now[..1] == was[..1];
  }

  /** Writes a length in the smallest form that holds it. */
  method WriteLength(buffer: array<byte>, size: nat)
    requires size <= MAX_PAYLOAD && 1 + |LengthField(size)| <= buffer.Length
    modifies buffer
    ensures Written(buffer[..], old(buffer[..]), 1, LengthField(size))
  {
    ghost var was := buffer[..];
    if size > 65535 {
      buffer[1] := 127;
      ghost var mid := buffer[..];
      WriteNumber(buffer, 2, 8, size);
      WrittenBoth(buffer[..], mid, was, 127, BigEndian(size, 8));
    } else if size > 125 {
      buffer[1] := 126;
      ghost var mid := buffer[..];
      WriteNumber(buffer, 2, 2, size);
      WrittenBoth(buffer[..], mid, was, 126, BigEndian(size, 2));
    } else {
      buffer[1] := size;
    }
  }

  /**
   * Builds the frame a server sends, with the smallest form of the length. Only the low half of the
   * operation code is used.
   */
  method BuildFrame(opcode: byte, fin: bool, payload: seq<byte>) returns (built: Option<seq<byte>>)
    ensures built == if |payload| > MAX_PAYLOAD then None else Some(ServerForm(opcode, fin, payload))
  {
    hide LengthField;
    var offset := 2;
    if |payload| > MAX_PAYLOAD { return None; }
    if |payload| > 65535 {
      offset := offset + 8;
    } else if |payload| > 125 {
      offset := offset + 2;
    }
    var buffer := new byte[offset + |payload|];
    buffer[0] := (if fin then 128 else 0) + opcode % 16;
    WriteLength(buffer, |payload|);
    assert buffer[..offset] == [FirstByte(opcode, fin)] + LengthField(|payload|);
    ghost var header := buffer[..offset];
    forall k | 0 <= k < |payload| { buffer[offset + k] := payload[k]; }
    assert buffer[..] == header + payload;
    return Some(buffer[..]);
  }

  // ---- Closing ----------------------------------------------------------------------------------

  predicate IsContinuation(b: byte) {
    b / 64 == 2
  }

  /** From position n back to a byte that is not in the middle of a character. */
  function Back(reason: seq<byte>, n: nat): (m: nat)
    requires n < |reason|
    ensures m <= n
  {
    if n > 0 && IsContinuation(reason[n]) then Back(reason, n - 1) else n
  }

  /** How much of a reason fits behind the code. */
  function Kept(reason: seq<byte>): (n: nat)
    ensures n <= |reason| && n <= MAX_CONTROL - 2
  {
    if |reason| <= MAX_CONTROL - 2 then |reason| else Back(reason, MAX_CONTROL - 2)
  }

  function ClosePayload(code: nat, reason: seq<byte>): seq<byte>
    requires code < 65536
  {
    [code / 256, code % 256] + reason[..Kept(reason)]
  }

  const CLOSE := 8
  const CLOSE_NONE := 1005

  function CloseCode(payload: seq<byte>): nat {
    if |payload| < 2 then CLOSE_NONE else Number(payload[..2])
  }

  method BuildClose(code: nat, reason: Option<seq<byte>>) returns (built: Option<seq<byte>>)
    requires code < 65536
    ensures built == Some(ServerForm(CLOSE, true, ClosePayload(code, if reason.Some? then reason.value else [])))
  {
    var text := if reason.Some? then reason.value else [];
    var size: nat := |text|;
    if size > MAX_CONTROL - 2 {
      size := MAX_CONTROL - 2;
      while size > 0 && text[size] / 64 == 2
        invariant size < |text| && Back(text, size) == Back(text, MAX_CONTROL - 2)
      {
        size := size - 1;
      }
    }
    built := BuildFrame(CLOSE, true, [code / 256 % 256, code % 256] + text[..size]);
  }

  /** A character of UTF-8: a first byte, and up to three that go on with it. */
  predicate IsCharacter(c: seq<byte>) {
    1 <= |c| <= 4 && !IsContinuation(c[0]) && forall i :: 1 <= i < |c| ==> IsContinuation(c[i])
  }

  lemma {:induction false} BackTo(reason: seq<byte>, n: nat, m: nat)
    requires m <= n < |reason| && !IsContinuation(reason[m])
    requires forall i :: m < i <= n ==> IsContinuation(reason[i])
    ensures Back(reason, n) == m
    decreases n
  {
    if n > m { BackTo(reason, n - 1, m); }
  }

  /** The character that position n is in. */
  lemma {:induction false} CharacterAt(chars: seq<seq<byte>>, n: nat) returns (k: nat)
    requires n < |Concat(chars)|
    ensures k < |chars| && |Concat(chars[..k])| <= n < |Concat(chars[..k + 1])|
    decreases |chars|
  {
    if n < |chars[0]| {
      k := 0;
      assert chars[..1] == [chars[0]] && chars[..1][1..] == [];
      assert Concat(chars[..1]) == chars[0] + Concat([]);
    } else {
      var j := CharacterAt(chars[1..], n - |chars[0]|);
      k := j + 1;
      assert chars[..j + 1][1..] == chars[1..][..j] && chars[..j + 2][1..] == chars[1..][..j + 1];
    }
  }

  lemma {:induction false} ConcatSplit(parts: seq<seq<byte>>, k: nat)
    requires k <= |parts|
    ensures Concat(parts) == Concat(parts[..k]) + Concat(parts[k..])
    decreases k
  {
    if k == 0 {
      assert parts[0..] == parts && parts[..0] == [];
    } else {
      ConcatSplit(parts[1..], k - 1);
      assert parts[1..][..k - 1] == parts[..k][1..] && parts[1..][k - 1..] == parts[k..];
    }
  }

  /** Of a reason in UTF-8 the frame keeps whole characters, as many as fit behind the code. */
  lemma CloseKeepsCharacters(chars: seq<seq<byte>>) returns (k: nat)
    requires forall i :: 0 <= i < |chars| ==> IsCharacter(chars[i])
    ensures k <= |chars| && Concat(chars)[..Kept(Concat(chars))] == Concat(chars[..k])
    ensures k < |chars| ==> |Concat(chars[..k + 1])| > MAX_CONTROL - 2
  {
    var reason, n := Concat(chars), MAX_CONTROL - 2;
    if |reason| <= n {
      k := |chars|;
      assert chars[..k] == chars;
    } else {
      k := CharacterAt(chars, n);
      ConcatSplit(chars, k);
      ConcatSplit(chars, k + 1);
      var before, c := Concat(chars[..k]), chars[k];
      assert chars[k..][1..] == chars[k + 1..] && chars[k..][0] == c;
      assert reason == before + c + Concat(chars[k + 1..]);
      assert |Concat(chars[..k + 1])| == |before| + |c|;
      assert forall i :: 0 <= i < |c| ==> reason[|before| + i] == c[i];
      assert forall i :: |before| < i <= n ==> reason[i] == c[i - |before|];
      BackTo(reason, n, |before|);
    }
  }

  /** A close frame is allowed, starts as section 5.5.1 of RFC 6455 says, and says its code. */
  lemma CloseAllowed(code: nat, reason: seq<byte>)
    requires code < 65536
    ensures Allowed(CLOSE, true, |ClosePayload(code, reason)|)
    ensures var f := ServerForm(CLOSE, true, ClosePayload(code, reason));
            f[0] == 0x88 && f[1] == 2 + Kept(reason) <= 125 && f[2..] == ClosePayload(code, reason)
    ensures CloseCode(ClosePayload(code, reason)) == code
    ensures CloseCode([]) == 1005 && CloseCode([code / 256]) == 1005
  {
    var two: seq<byte> := [code / 256, code % 256];
    assert ClosePayload(code, reason)[..2] == two && two[..1] == [code / 256] && two[..1][..0] == [];
    assert Number(two[..1]) == code / 256;
  }
}
