/** The prefix integers of section 5.1 of RFC 7541. */
module HpackInteger {
  import opened Common
  import opened Bits
  import opened HuffmanCode

  const MAX_INTEGER: nat := 0x0fffffff

  /** Every way in which the routines of HPACK fail. */
  datatype HpackError =
    | TruncatedInteger
    | OverflowingInteger
    | TruncatedString
    | StringTooLong
    | BadHuffman(error: HuffmanError)
    | ZeroIndex
    | UnknownIndex
    | TableTooLarge
    | LateSizeUpdate
    | NameTooLong
    | ListTooLong
    | Refused
    | NoSpace

  /** A decoded value and the position that follows it. */
  datatype Read<+T> = Read(value: T, next: nat)

  type Outcome<+T> = Result<Read<T>, HpackError>

  function Mask(prefix: nat): nat {
    Shl(1, prefix) - 1
  }

  function DecodeTail(data: seq<byte>, position: nat, result: nat, shift: nat): (r: Outcome<nat>)
    ensures r.Ok? ==> position < r.value.next <= |data|
    decreases |data| - position
  {
    if position >= |data| then Err(TruncatedInteger)
    else if shift > 21 then Err(OverflowingInteger)
    else
      var sum := result + Shl(data[position] % 128, shift);
      if sum > MAX_INTEGER then Err(OverflowingInteger)
      else if data[position] < 128 then Ok(Read(sum, position + 1))
      else DecodeTail(data, position + 1, sum, shift + 7)
  }

  function DecodeInteger(data: seq<byte>, offset: nat, prefix: nat): (r: Outcome<nat>)
    requires 1 <= prefix <= 8
    ensures r.Ok? ==> offset < r.value.next <= |data|
  {
    if offset >= |data| then Err(TruncatedInteger)
    else
      var result := Low(data[offset], prefix);
      if result < Mask(prefix) then Ok(Read(result, offset + 1))
      else DecodeTail(data, offset + 1, result, 0)
  }

  function EncodeTail(value: nat): (r: seq<byte>)
    ensures |r| >= 1
  {
    if value < 128 then [value] else [value % 128 + 128] + EncodeTail(value / 128)
  }

  /** The flags of a representation leave the bits of the prefix free. */
  predicate FlagsFit(prefix: nat, flags: nat) {
    1 <= prefix <= 8 && Low(flags, prefix) == 0 && flags + Mask(prefix) < 256
  }

  function EncodeInteger(prefix: nat, flags: nat, value: nat): (r: seq<byte>)
    requires FlagsFit(prefix, flags)
    ensures |r| >= 1
  {
    if value < Mask(prefix) then [flags + value]
    else [flags + Mask(prefix)] + EncodeTail(value - Mask(prefix))
  }

  // ---- What the decoder accepts ---------------------------------------------------------------

  /** Continuation bytes: all but the last carry the continuation bit. */
  ghost predicate Continuation(tail: seq<byte>) {
    tail != [] && forall i :: 0 <= i < |tail| ==> (tail[i] < 128 <==> i == |tail| - 1)
  }

  /** Their value, seven bits a byte, the least significant first. */
  ghost function TailValue(tail: seq<byte>): nat {
    if tail == [] then 0 else tail[0] % 128 + 128 * TailValue(tail[1..])
  }

  /** The definition of section 5.1 with the bounds of the source. */
  ghost predicate Represents(bs: seq<byte>, prefix: nat, value: nat) {
    && bs != [] && value <= 0x0fffffff
    && if Low(bs[0], prefix) < Mask(prefix)
       then |bs| == 1 && value == Low(bs[0], prefix)
       else 2 <= |bs| <= 5 && Continuation(bs[1..])
            && value == Low(bs[0], prefix) + TailValue(bs[1..])
  }

  lemma {:induction false} ShlSum(a: nat, b: nat, n: nat)
    ensures Shl(a + b, n) == Shl(a, n) + Shl(b, n)
  {
    if n > 0 { ShlSum(a, b, n - 1); }
  }

  lemma {:induction false} ShlSeven(v: nat, n: nat)
    ensures Shl(128 * v, n) == Shl(v, n + 7)
  {
    if n == 0 {
      assert Shl(v, 1) == 2 * v;
      assert Shl(v, 2) == 2 * Shl(v, 1);
      assert Shl(v, 3) == 2 * Shl(v, 2);
      assert Shl(v, 4) == 2 * Shl(v, 3);
      assert Shl(v, 5) == 2 * Shl(v, 4);
      assert Shl(v, 6) == 2 * Shl(v, 5);
    } else {
      ShlSeven(v, n - 1);
    }
  }

  lemma ShlDigits(v: nat, n: nat)
    ensures Shl(v, n) == Shl(v % 128, n) + Shl(v / 128, n + 7)
  {
    ShlSum(v % 128, 128 * (v / 128), n);
    ShlSeven(v / 128, n);
  }

  lemma {:induction false} ShlMonotone(a: nat, b: nat, n: nat)
    requires a <= b
    ensures Shl(a, n) <= Shl(b, n)
  {
    if n > 0 { ShlMonotone(a, b, n - 1); }
  }

  lemma ContinuationFirst(tail: seq<byte>)
    requires |tail| >= 2
    ensures Continuation(tail) <==> tail[0] >= 128 && Continuation(tail[1..])
  {
    if tail[0] >= 128 && Continuation(tail[1..]) {
      forall i | 0 <= i < |tail| ensures tail[i] < 128 <==> i == |tail| - 1 {
        if i > 0 { assert tail[i] == tail[1..][i - 1]; }
      }
    }
    if Continuation(tail) {
      forall i | 0 <= i < |tail| - 1 ensures tail[1..][i] < 128 <==> i == |tail| - 2 {
        assert tail[1..][i] == tail[i + 1];
      }
    }
  }

  lemma {:induction false} TailSound(data: seq<byte>, position: nat, result: nat, shift: nat)
    requires DecodeTail(data, position, result, shift).Ok?
    ensures var r := DecodeTail(data, position, result, shift).value;
            && position < r.next <= |data| && r.value <= MAX_INTEGER
            && Continuation(data[position..r.next])
            && 7 * (r.next - position) + shift <= 28
            && r.value == result + Shl(TailValue(data[position..r.next]), shift)
    decreases |data| - position
  {
    var b := data[position];
    var r := DecodeTail(data, position, result, shift).value;
    if b < 128 {
      assert data[position..r.next] == [b];
      assert [b][1..] == [];
    } else {
      TailSound(data, position + 1, result + Shl(b % 128, shift), shift + 7);
      var tail := data[position..r.next];
      assert tail[1..] == data[position + 1..r.next];
      ShlDigits(TailValue(tail), shift);
      ContinuationFirst(tail);
    }
  }

  lemma {:induction false} TailComplete(data: seq<byte>, position: nat, next: nat, result: nat, shift: nat)
    requires position < next <= |data| && Continuation(data[position..next])
    requires 7 * (next - position) + shift <= 28
    requires result + Shl(TailValue(data[position..next]), shift) <= MAX_INTEGER
    ensures DecodeTail(data, position, result, shift)
         == Ok(Read(result + Shl(TailValue(data[position..next]), shift), next))
    decreases next - position
  {
    var tail := data[position..next];
    assert tail[0] == data[position];
    assert tail[1..] == data[position + 1..next];
    ShlDigits(TailValue(tail), shift);
    if next == position + 1 {
      assert TailValue(tail[1..]) == 0;
      ShlZero(shift + 7);
    } else {
      ContinuationFirst(tail);
      TailComplete(data, position + 1, next, result + Shl(data[position] % 128, shift), shift + 7);
    }
  }

  lemma {:induction false} ShlZero(n: nat)
    ensures Shl(0, n) == 0
  {
    if n > 0 { ShlZero(n - 1); }
  }

  /** The decoder accepts exactly the representations of the section, within the bounds. */
  lemma DecodeIntegerExact(data: seq<byte>, offset: nat, prefix: nat, value: nat, next: nat)
    requires 1 <= prefix <= 8
    ensures DecodeInteger(data, offset, prefix) == Ok(Read(value, next))
       <==> offset < next <= |data| && Represents(data[offset..next], prefix, value)
  {
    if DecodeInteger(data, offset, prefix) == Ok(Read(value, next)) {
      PrefixBound(data[offset], prefix);
      if Low(data[offset], prefix) == Mask(prefix) {
        TailSound(data, offset + 1, Mask(prefix), 0);
        assert data[offset..next][1..] == data[offset + 1..next];
      }
    }
    if offset < next <= |data| && Represents(data[offset..next], prefix, value) {
      PrefixBound(data[offset], prefix);
      var bs := data[offset..next];
      if Low(bs[0], prefix) == Mask(prefix) {
        assert bs[1..] == data[offset + 1..next];
        TailComplete(data, offset + 1, next, Mask(prefix), 0);
      }
    }
  }

  lemma PrefixBound(b: byte, prefix: nat)
    requires 1 <= prefix <= 8
    ensures Low(b, prefix) <= Mask(prefix) <= 255
  {
    ShiftSplit(b, prefix);
    assert Shl(1, 8) == 256;
    MaskMonotone(prefix);
  }

  lemma {:induction false} MaskMonotone(prefix: nat)
    requires prefix <= 8
    ensures Shl(1, prefix) <= 256
    decreases 8 - prefix
  {
    if prefix == 8 {
      assert Shl(1, 8) == 256;
    } else {
      MaskMonotone(prefix + 1);
    }
  }

  // ---- What the encoder writes ----------------------------------------------------------------

  lemma {:induction false} EncodeTailShape(value: nat, digits: nat)
    requires value < Shl(1, 7 * digits) && digits >= 1
    ensures Continuation(EncodeTail(value)) && TailValue(EncodeTail(value)) == value
    ensures |EncodeTail(value)| <= digits
    decreases digits
  {
    var tail := EncodeTail(value);
    if value < 128 {
      assert tail[1..] == [];
    } else {
      assert 7 * digits == 7 * (digits - 1) + 7;
      ShlSeven(1, 7 * (digits - 1));
      ShlBy128(7 * (digits - 1));
      assert digits > 1;
      EncodeTailShape(value / 128, digits - 1);
      assert tail[1..] == EncodeTail(value / 128);
      ContinuationFirst(tail);
    }
  }

  lemma {:induction false} ShlBy128(n: nat)
    ensures Shl(128, n) == 128 * Shl(1, n)
  {
    if n > 0 { ShlBy128(n - 1); }
  }

  /** What is encoded represents the value, in at most five bytes. */
  lemma EncodeRepresents(prefix: nat, flags: nat, value: nat)
    requires FlagsFit(prefix, flags) && value <= MAX_INTEGER
    ensures Represents(EncodeInteger(prefix, flags, value), prefix, value)
    ensures |EncodeInteger(prefix, flags, value)| <= 5
  {
    var bs := EncodeInteger(prefix, flags, value);
    FlagsKeepPrefix(prefix, flags, if value < Mask(prefix) then value else Mask(prefix));
    if value >= Mask(prefix) {
      assert Shl(1, 7 * 4) == MAX_INTEGER + 1 by {
        assert Shl(1, 14) == 0x4000 && Shl(1, 28) == 0x10000000;
      }
      EncodeTailShape(value - Mask(prefix), 4);
      assert bs[1..] == EncodeTail(value - Mask(prefix));
    }
  }

  lemma FlagsKeepPrefix(prefix: nat, flags: nat, v: nat)
    requires FlagsFit(prefix, flags) && v <= Mask(prefix)
    ensures Low(flags + v, prefix) == v
  {
    ShiftSplit(flags, prefix);
    ShiftJoin(Shr(flags, prefix), v, prefix);
  }

  /** Round trip: the value and the position behind it come back, wherever the integer stands. */
  lemma IntegerRoundTrip(before: seq<byte>, prefix: nat, flags: nat, value: nat, after: seq<byte>)
    requires FlagsFit(prefix, flags) && value <= MAX_INTEGER
    ensures var bs := EncodeInteger(prefix, flags, value);
            DecodeInteger(before + bs + after, |before|, prefix) == Ok(Read(value, |before| + |bs|))
  {
    var bs := EncodeInteger(prefix, flags, value);
    var data := before + bs + after;
    EncodeRepresents(prefix, flags, value);
    assert data[|before|..|before| + |bs|] == bs;
    DecodeIntegerExact(data, |before|, prefix, value, |before| + |bs|);
  }

  // ---- The routines of the source -------------------------------------------------------------

  /** Reads at offset. The position moves only when the whole integer has been read. */
  method DecodeIntegerAt(data: seq<byte>, offset: nat, prefix: nat)
    returns (next: nat, r: Result<nat, HpackError>)
    requires 1 <= prefix <= 8
    ensures r.Ok? ==> DecodeInteger(data, offset, prefix) == Ok(Read(r.value, next))
    ensures r.Err? ==> DecodeInteger(data, offset, prefix) == Err(r.error) && next == offset
  {
    next := offset;
    var position := offset;
    var mask := Mask(prefix);
    if position >= |data| {
      return offset, Err(TruncatedInteger);
    }
    var result: nat := Low(data[position], prefix);
    position := position + 1;
    if result < mask {
      return position, Ok(result);
    }
    var shift: nat := 0;
    while true
      invariant offset < position <= |data|
      invariant DecodeInteger(data, offset, prefix) == DecodeTail(data, position, result, shift)
      decreases |data| - position
    {
      if position >= |data| {
        return offset, Err(TruncatedInteger);
      }
      if shift > 21 {
        return offset, Err(OverflowingInteger);
      }
      var octet := data[position];
      position := position + 1;
      result := result + Shl(octet % 128, shift);
      shift := shift + 7;
      if result > MAX_INTEGER {
        return offset, Err(OverflowingInteger);
      }
      if octet < 128 { break; }
    }
    return position, Ok(result);
  }

  /**
   * Writes at offset. The position moves only when the whole integer has been written, which is
   * exactly when it fits.
   */
  method EncodeIntegerAt(buffer: array<byte>, offset: nat, prefix: nat, flags: nat, value: nat)
    returns (next: nat, ok: bool)
    requires FlagsFit(prefix, flags) && offset <= buffer.Length
    modifies buffer
    ensures ok <==> offset + |EncodeInteger(prefix, flags, value)| <= buffer.Length
    ensures ok ==> next == offset + |EncodeInteger(prefix, flags, value)|
    ensures ok ==> Written(buffer[..], old(buffer[..]), offset, EncodeInteger(prefix, flags, value))
    ensures !ok ==> next == offset
    ensures buffer[..offset] == old(buffer[..offset])
  {
    hide *;
    var position := offset;
    EncodeIntegerCases(prefix, flags, value);
    WrittenNothing(buffer[..], offset);
    var mask := Mask(prefix);
    if position >= buffer.Length {
      return offset, false;
    }
    if value < mask {
      WrittenNext(buffer[..], old(buffer[..]), offset, [], flags + value);
      buffer[position] := flags + value;
      position := position + 1;
      WrittenPrefix(buffer[..], old(buffer[..]), offset, [flags + value]);
    } else {
      WrittenNext(buffer[..], old(buffer[..]), offset, [], flags + mask);
      buffer[position] := flags + mask;
      position := position + 1;
      var left: nat := value - mask;
      ghost var out: seq<byte> := [flags + mask];
      while left >= 128
        invariant offset < position <= buffer.Length && |out| == position - offset
        invariant Written(buffer[..], old(buffer[..]), offset, out)
        invariant EncodeInteger(prefix, flags, value) == out + EncodeTail(left)
      {
        WrittenPrefix(buffer[..], old(buffer[..]), offset, out);
        EncodeTailCases(left);
        if position >= buffer.Length {
          return offset, false;
        }
        WrittenNext(buffer[..], old(buffer[..]), offset, out, left % 128 + 128);
        buffer[position] := left % 128 + 128;
        out := out + [left % 128 + 128];
        position := position + 1;
        left := left / 128;
      }
      WrittenPrefix(buffer[..], old(buffer[..]), offset, out);
      EncodeTailCases(left);
      if position >= buffer.Length {
        return offset, false;
      }
      WrittenNext(buffer[..], old(buffer[..]), offset, out, left);
      buffer[position] := left;
      position := position + 1;
      WrittenPrefix(buffer[..], old(buffer[..]), offset, out + [left]);
    }
    return position, true;
  }

  lemma EncodeIntegerCases(prefix: nat, flags: nat, value: nat)
    requires FlagsFit(prefix, flags)
    ensures 0 <= Mask(prefix) && flags + Mask(prefix) < 256
    ensures value < Mask(prefix) ==> EncodeInteger(prefix, flags, value) == [flags + value]
    ensures value >= Mask(prefix) ==>
              EncodeInteger(prefix, flags, value) == [flags + Mask(prefix)] + EncodeTail(value - Mask(prefix))
  {
  }

  lemma EncodeTailCases(left: nat)
    ensures left < 128 ==> EncodeTail(left) == [left]
    ensures left >= 128 ==> EncodeTail(left) == [left % 128 + 128] + EncodeTail(left / 128)
    ensures |EncodeTail(left)| >= 1
  {
  }
}
