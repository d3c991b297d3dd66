/** The Huffman routines of the source: loops over bytes, bits and a 32 bit accumulator. */
module HuffmanCodec {
  import opened Common
  import opened Bits
  import opened HuffmanCode

  /** The bits left when k bits of a byte and all the bytes after it are still to be read. */
  ghost function Ahead(octet: byte, k: nat, after: seq<byte>): seq<bit> {
    BitsOf(octet, k) + Unpack(after)
  }

  lemma AheadWhole(d: seq<byte>)
    requires d != []
    ensures Unpack(d) == Ahead(d[0], 8, d[1..])
  {
  }

  lemma AheadNext(octet: byte, k: nat, after: seq<byte>)
    requires k > 0
    ensures Ahead(octet, k, after) != [] && Ahead(octet, k, after)[0] == Shr(octet, k - 1) % 2
    ensures Ahead(octet, k, after)[1..] == Ahead(octet, k - 1, after)
  {
    HeadBit(octet, k);
  }

  lemma AheadDone(octet: byte, after: seq<byte>)
    ensures Ahead(octet, 0, after) == Unpack(after)
  {
  }

  /** What is written so far, followed by what the bits ahead decode to, is the whole result. */
  ghost predicate Progress(t: Tables, goal: Decoded, out: seq<byte>, ahead: seq<bit>, code: nat, bits: nat, room: nat)
    requires ValidCode(t)
  {
    Pending(t, code, bits) && goal == Prepend(out, DecodeBits(t, ahead, code, bits, room))
  }

  lemma ProgressStart(t: Tables, data: seq<byte>, room: nat)
    requires ValidCode(t)
    ensures Progress(t, Decode(t, data, room), [], Unpack(data), 0, 0, room)
  {
    assert Pending(t, 0, 0);
    var goal := Decode(t, data, room);
    if goal.Ok? { assert [] + goal.value == goal.value; }
  }

  /** One bit that ends no symbol. */
  lemma ProgressMiss(t: Tables, goal: Decoded, out: seq<byte>, ahead: seq<bit>, code: nat, bits: nat, room: nat)
    requires ValidCode(t) && Progress(t, goal, out, ahead, code, bits, room) && ahead != []
    ensures bits < MAX_BITS
    ensures Lookup(t, bits + 1, 2 * code + ahead[0]).None? ==>
              Progress(t, goal, out, ahead[1..], 2 * code + ahead[0], bits + 1, room)
  {
    PendingStep(t, code, bits, ahead[0]);
  }

  /** One bit that ends a symbol. */
  lemma ProgressHit(t: Tables, goal: Decoded, out: seq<byte>, ahead: seq<bit>, code: nat, bits: nat, room: nat)
    requires ValidCode(t) && Progress(t, goal, out, ahead, code, bits, room) && ahead != [] && bits < MAX_BITS
    requires Lookup(t, bits + 1, 2 * code + ahead[0]).Some?
    ensures var s := Lookup(t, bits + 1, 2 * code + ahead[0]).value;
            (s == EOS || s < 256) &&
            if s == EOS then goal == Err(EndOfString)
            else if room == 0 then goal == Err(TooLong)
            else Progress(t, goal, out + [s], ahead[1..], 0, 0, room - 1)
  {
    var s := Lookup(t, bits + 1, 2 * code + ahead[0]).value;
    if s != EOS && room > 0 {
      PrependTwice(out, [s], DecodeBits(t, ahead[1..], 0, 0, room - 1));
    }
  }

  lemma ProgressEnd(t: Tables, goal: Decoded, out: seq<byte>, ahead: seq<bit>, code: nat, bits: nat, room: nat)
    requires ValidCode(t) && Progress(t, goal, out, ahead, code, bits, room) && ahead == []
    ensures goal == if bits > 7 then Err(PaddingAboveByte)
                    else if bits > 0 && code != Shl(1, bits) - 1 then Err(InvalidPadding)
                    else Ok(out)
  {
    assert out + [] == out;
  }

  /**
   * Decodes the coded bytes into buffer[..size]. The error of an over-long code is in the program
   * and, by the last clause, unreachable.
   */
  method DecodeHuffman(t: Tables, data: seq<byte>, buffer: array<byte>)
    returns (r: Result<nat, HuffmanError>)
    requires ValidCode(t)
    modifies buffer
    ensures r.Ok? ==> r.value <= buffer.Length && Decode(t, data, buffer.Length) == Ok(buffer[..r.value])
    ensures r.Err? ==> Decode(t, data, buffer.Length) == Err(r.error)
    ensures r != Err(InvalidCode)
  {
    hide *;
    var offset := 0;
    var code: nat, bits: nat := 0, 0;
    var index := 0;
    ghost var goal := Decode(t, data, buffer.Length);
    CodeIsComplete(t, data, buffer.Length);
    assert data[index..] == data && buffer[..offset] == [];
    ProgressStart(t, data, buffer.Length);
    while index < |data|
      invariant 0 <= index <= |data| && 0 <= offset <= buffer.Length && bits <= MAX_BITS
      invariant Progress(t, goal, buffer[..offset], Unpack(data[index..]), code, bits, buffer.Length - offset)
    {
      var octet := data[index];
      ghost var after := data[index + 1..];
      AheadWhole(data[index..]);
      assert data[index..][1..] == after;
      var bit := 7;
      while bit >= 0
        invariant -1 <= bit <= 7 && 0 <= offset <= buffer.Length && bits <= MAX_BITS
        invariant Progress(t, goal, buffer[..offset], Ahead(octet, bit + 1, after), code, bits, buffer.Length - offset)
      {
        ghost var ahead, was, bitsWas, out := Ahead(octet, bit + 1, after), code, bits, buffer[..offset];
        AheadNext(octet, bit + 1, after);
        ProgressMiss(t, goal, out, ahead, was, bitsWas, buffer.Length - offset);
        code := 2 * code + Shr(octet, bit) % 2;
        bits := bits + 1;
        bit := bit - 1;
        if bits > MAX_BITS {
          return Err(InvalidCode);
        }
        var found := Lookup(t, bits, code);
        if found == None { continue; }
        var symbol := found.value;
        ProgressHit(t, goal, out, ahead, was, bitsWas, buffer.Length - offset);
        if symbol == EOS {
          return Err(EndOfString);
        }
        if offset >= buffer.Length {
          return Err(TooLong);
        }
        buffer[offset] := symbol;
        offset := offset + 1;
        assert buffer[..offset] == out + [symbol];
        code := 0;
        bits := 0;
      }
      AheadDone(octet, after);
      index := index + 1;
    }
    ProgressEnd(t, goal, buffer[..offset], Unpack(data[index..]), code, bits, buffer.Length - offset);
    if bits > 7 {
      return Err(PaddingAboveByte);
    }
    if bits > 0 && code != Shl(1, bits) - 1 {
      return Err(InvalidPadding);
    }
    return Ok(offset);
  }

  lemma PrependTwice(a: seq<byte>, b: seq<byte>, r: Decoded)
    ensures Prepend(a, Prepend(b, r)) == Prepend(a + b, r)
  {
    if r.Ok? { assert a + (b + r.value) == a + b + r.value; }
  }

  /** The number of bytes of the coded form. */
  method SizeHuffman(t: Tables, data: seq<byte>) returns (size: nat)
    requires ValidCode(t)
    ensures size == |Encode(t, data)|
  {
    var bits := 0;
    var index := 0;
    while index < |data|
      invariant 0 <= index <= |data|
      invariant bits == |CodedBits(t, data[..index])|
    {
      CodedBitsNext(t, data, index);
      bits := bits + t.lengths[data[index]];
      index := index + 1;
    }
    assert data[..index] == data;
    return (bits + 7) / 8;
  }

  lemma CodedBitsNext(t: Tables, data: seq<byte>, index: nat)
    requires ValidCode(t) && index < |data|
    ensures CodedBits(t, data[..index + 1]) == CodedBits(t, data[..index]) + CodeBits(t, data[index])
  {
    assert data[..index + 1] == data[..index] + [data[index]];
    CodedBitsConcat(t, data[..index], [data[index]]);
    assert [data[index]][1..] == [];
    assert CodedBits(t, [data[index]]) == CodeBits(t, data[index]);
  }

  // ---- The encoder ----------------------------------------------------------------------------

  /** The bytes written and the low bits of the accumulator that wait are the bits pushed so far. */
  ghost predicate Pushed(out: seq<byte>, accumulator: nat, count: nat, w: seq<bit>) {
    Unpack(out) + BitsOf(accumulator, count) == w
  }

  lemma PushedStart(accumulator: nat)
    ensures Pushed([], accumulator, 0, [])
  {
  }

  /**
   * Shifting the accumulator within 32 bits and filling the freed bits loses nothing: the bits that
   * fall off the top, or that stay above the count, are ones already written.
   */
  lemma PushStep(out: seq<byte>, accumulator: nat, count: nat, w: seq<bit>, v: nat, take: nat)
    requires Pushed(out, accumulator, count, w) && count + take <= 32
    ensures Pushed(out, Low(Shl(accumulator, take), 32) + Low(v, take), count + take, w + BitsOf(v, take))
  {
    hide Low;
    hide Shl;
    hide BitsOf;
    LowShl(accumulator, take, 32);
    ShiftSplit(v, take);
    BitsOfPush(Low(accumulator, 32 - take), Low(v, take), count, take);
    BitsOfLow(accumulator, count, 32 - take);
    BitsOfLow(v, take, take);
  }

  /** Writing the eight oldest waiting bits. */
  lemma FlushStep(out: seq<byte>, accumulator: nat, count: nat, w: seq<bit>)
    requires Pushed(out, accumulator, count + 8, w)
    ensures Low(Shr(accumulator, count), 8) < 256
    ensures Pushed(out + [Low(Shr(accumulator, count), 8)], accumulator, count, w)
  {
    var v := Shr(accumulator, count);
    LowByte(v);
    assert 8 + count == count + 8;
    BitsSplit(accumulator, 8, count);
    BitsOfLow(v, 8, 8);
    UnpackConcat(out, [Low(v, 8)]);
    UnpackOne(Low(v, 8));
  }

  lemma LowByte(v: nat)
    ensures Low(v, 8) < 256
  {
    ShiftSplit(v, 8);
    assert Shl(1, 8) == 256;
  }

  lemma UnpackOne(b: byte)
    ensures Unpack([b]) == BitsOf(b, 8)
  {
    assert [b][1..] == [];
  }

  /** Where the code of one byte stands when its last left bits are still to be pushed. */
  ghost function Partial(t: Tables, data: seq<byte>, index: nat, left: nat): seq<bit>
    requires ValidCode(t) && index < |data| && left <= t.lengths[data[index]]
  {
    CodedBits(t, data[..index]) + BitsOf(Shr(t.codes[data[index]], left), t.lengths[data[index]] - left)
  }

  lemma PartialStart(t: Tables, data: seq<byte>, index: nat)
    requires ValidCode(t) && index < |data|
    ensures Partial(t, data, index, t.lengths[data[index]]) == CodedBits(t, data[..index])
  {
  }

  lemma PartialStep(t: Tables, data: seq<byte>, index: nat, left: nat, take: nat)
    requires ValidCode(t) && index < |data| && take <= left <= t.lengths[data[index]]
    ensures Partial(t, data, index, left - take)
         == Partial(t, data, index, left) + BitsOf(Shr(t.codes[data[index]], left - take), take)
  {
    var code, high := t.codes[data[index]], t.lengths[data[index]] - left;
    BitsSplit(Shr(code, left - take), high, take);
    ShrShr(code, left - take, take);
  }

  lemma PartialEnd(t: Tables, data: seq<byte>, index: nat)
    requires ValidCode(t) && index < |data|
    ensures Partial(t, data, index, 0) == CodedBits(t, data[..index + 1])
  {
    CodedBitsNext(t, data, index);
  }

  /** Eight waiting bits are one more byte of the coded form. */
  lemma MoreToWrite(t: Tables, data: seq<byte>, index: nat, left: nat, out: seq<byte>, accumulator: nat, count: nat)
    requires ValidCode(t) && index < |data| && left <= t.lengths[data[index]]
    requires Pushed(out, accumulator, count, Partial(t, data, index, left)) && count >= 8
    ensures |Encode(t, data)| > |out|
  {
    CodeFits(t, data[index]);
    assert |Partial(t, data, index, left)| <= |CodedBits(t, data[..index + 1])| by {
      CodedBitsNext(t, data, index);
    }
    assert data == data[..index + 1] + data[index + 1..];
    CodedBitsConcat(t, data[..index + 1], data[index + 1..]);
  }

  /** Completing the last byte with ones is the padding of the coded form. */
  lemma PushedEnd(t: Tables, data: seq<byte>, out: seq<byte>, accumulator: nat, count: nat)
    requires ValidCode(t) && Pushed(out, accumulator, count, CodedBits(t, data)) && count < 8
    ensures count == 0 ==> out == Encode(t, data)
    ensures count > 0 ==>
              var last := Low(Shl(accumulator, 8 - count), 32) + (Shl(1, 8 - count) - 1);
              Low(last, 8) < 256 && out + [Low(last, 8)] == Encode(t, data)
    ensures count > 0 ==> |Encode(t, data)| == |out| + 1
  {
    hide Low;
    hide Shl;
    hide Pack;
    var w := CodedBits(t, data);
    if count == 0 {
      assert Ones(0) == [];
      assert Unpack(out) == w && w + Ones(PadSize(|w|)) == w;
      PackUnpack(out);
    } else {
      PadLast(out, accumulator, count, w);
      var last := Low(Shl(accumulator, 8 - count), 32) + (Shl(1, 8 - count) - 1);
      PackUnpack(out + [Low(last, 8)]);
    }
  }

  lemma PadLast(out: seq<byte>, accumulator: nat, count: nat, w: seq<bit>)
    requires Pushed(out, accumulator, count, w) && 0 < count < 8
    ensures var last := Low(Shl(accumulator, 8 - count), 32) + (Shl(1, 8 - count) - 1);
            Low(last, 8) < 256 && Unpack(out + [Low(last, 8)]) == w + Ones(8 - count)
    ensures 8 - count == PadSize(|w|)
  {
    hide Low;
    hide Shl;
    var pad := 8 - count;
    PushStep(out, accumulator, count, w, Shl(1, pad) - 1, pad);
    LowSmall(Shl(1, pad) - 1, pad);
    OnesBits(pad);
    var last := Low(Shl(accumulator, pad), 32) + (Shl(1, pad) - 1);
    ShrNone(last);
    FlushStep(out, last, 0, w + Ones(pad));
    assert BitsOf(last, 0) == [];
  }

  lemma ShrNone(v: nat)
    ensures Shr(v, 0) == v
  {
  }

  /**
   * Writes the coded form of data at buffer[start..]. There is no space exactly when the coded form
   * is longer than the room from start on.
   */
  method EncodeHuffman(t: Tables, data: seq<byte>, buffer: array<byte>, start: nat) returns (r: Option<nat>)
    requires ValidCode(t) && start <= buffer.Length
    modifies buffer
    ensures r.Some? <==> start + |Encode(t, data)| <= buffer.Length
    ensures r.Some? ==> r.value == |Encode(t, data)|
    ensures r.Some? ==> Written(buffer[..], old(buffer[..]), start, Encode(t, data))
    ensures buffer[..start] == old(buffer[..start])
  {
    hide *;
    var offset := start;
    var accumulator: nat, count: nat := 0, 0;
    ghost var out: seq<byte> := [];
    PushedStart(accumulator);
    WrittenNothing(buffer[..], start);
    CodedBitsNothing(t, data);
    var index := 0;
    while index < |data|
      invariant 0 <= index <= |data| && start <= offset <= buffer.Length && count < 8
      invariant |out| == offset - start
      invariant Written(buffer[..], old(buffer[..]), start, out)
      invariant Pushed(out, accumulator, count, CodedBits(t, data[..index]))
    {
      var code := t.codes[data[index]];
      var length := t.lengths[data[index]];
      PartialStart(t, data, index);
      while length > 0
        invariant 0 <= length <= t.lengths[data[index]]
        invariant start <= offset <= buffer.Length && count < 8
        invariant |out| == offset - start
        invariant Written(buffer[..], old(buffer[..]), start, out)
        invariant Pushed(out, accumulator, count, Partial(t, data, index, length))
      {
        var take := 32 - count;
        if take > length { take := length; }
        PushStep(out, accumulator, count, Partial(t, data, index, length), Shr(code, length - take), take);
        PartialStep(t, data, index, length, take);
        accumulator := Low(Shl(accumulator, take), 32) + Low(Shr(code, length - take), take);
        count := count + take;
        length := length - take;
        while count >= 8
          invariant start <= offset <= buffer.Length
          invariant |out| == offset - start
          invariant Written(buffer[..], old(buffer[..]), start, out)
          invariant Pushed(out, accumulator, count, Partial(t, data, index, length))
        {
          MoreToWrite(t, data, index, length, out, accumulator, count);
          if offset >= buffer.Length {
            WrittenPrefix(buffer[..], old(buffer[..]), start, out);
            return None;
          }
          count := count - 8;
          FlushStep(out, accumulator, count, Partial(t, data, index, length));
          WrittenNext(buffer[..], old(buffer[..]), start, out, Low(Shr(accumulator, count), 8));
          buffer[offset] := Low(Shr(accumulator, count), 8);
          out := out + [buffer[offset]];
          offset := offset + 1;
        }
      }
      PartialEnd(t, data, index);
      index := index + 1;
    }
    assert data[..index] == data;
    PushedEnd(t, data, out, accumulator, count);
    if count > 0 {
      if offset >= buffer.Length {
        WrittenPrefix(buffer[..], old(buffer[..]), start, out);
        return None;
      }
      accumulator := Low(Shl(accumulator, 8 - count), 32) + (Shl(1, 8 - count) - 1);
      WrittenNext(buffer[..], old(buffer[..]), start, out, Low(accumulator, 8));
      buffer[offset] := Low(accumulator, 8);
      out := out + [buffer[offset]];
      offset := offset + 1;
    }
    WrittenPrefix(buffer[..], old(buffer[..]), start, out);
    return Some(offset - start);
  }

  lemma CodedBitsNothing(t: Tables, data: seq<byte>)
    requires ValidCode(t)
    ensures CodedBits(t, data[..0]) == []
    ensures |t.codes| == |t.lengths| == 257
  {
  }
}
