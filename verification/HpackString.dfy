/** The string literals of section 5.2 of RFC 7541: a flag and a length, then raw or coded bytes. */
module HpackString {
  import opened Common
  import opened Bits
  import opened HuffmanCode
  import opened HuffmanCodec
  import opened HpackInteger

  /** The bytes that follow the length: the coded form only when it is the shorter one. */
  ghost function Payload(t: Tables, s: seq<byte>): (r: seq<byte>)
    requires ValidCode(t)
    ensures |r| <= |s| && |r| <= |Encode(t, s)|
  {
    if |Encode(t, s)| < |s| then Encode(t, s) else s
  }

  /** The flag and the length. */
  ghost function StringHeader(t: Tables, s: seq<byte>): (r: seq<byte>)
    requires ValidCode(t)
    ensures |r| >= 1
  {
    StringFlags();
    EncodeInteger(7, if |Encode(t, s)| < |s| then 0x80 else 0x00, |Payload(t, s)|)
  }

  ghost function EncodeString(t: Tables, s: seq<byte>): seq<byte>
    requires ValidCode(t)
  {
    StringHeader(t, s) + Payload(t, s)
  }

  lemma StringFlags()
    ensures Mask(7) == 127 && FlagsFit(7, 0x80) && FlagsFit(7, 0x00)
  {
    assert Low(0x80, 7) == 0 && Low(0, 7) == 0;
  }

  function DecodeString(t: Tables, data: seq<byte>, offset: nat, room: nat): (r: Outcome<seq<byte>>)
    requires ValidCode(t)
    ensures r.Ok? ==> offset < r.value.next <= |data| && |r.value.value| <= room
  {
    if offset >= |data| then Err(TruncatedString) else
    match DecodeInteger(data, offset, 7)
    case Err(e) => Err(e)
    case Ok(Read(length, position)) =>
      if length > |data| - position then Err(TruncatedString)
      else
        var payload := data[position..position + length];
        if data[offset] >= 0x80 then
          match Decode(t, payload, room)
          case Ok(s) => Ok(Read(s, position + length))
          case Err(e) => Err(BadHuffman(e))
        else if length > room then Err(StringTooLong)
        else Ok(Read(payload, position + length))
  }

  lemma HeaderFlag(t: Tables, s: seq<byte>)
    requires ValidCode(t)
    ensures StringHeader(t, s)[0] >= 0x80 <==> |Encode(t, s)| < |s|
  {
    StringFlags();
  }

  /**
   * Round trip, wherever the string stands: it comes back when there is room for it, and is refused
   * for its size when there is not.
   */
  lemma StringRoundTrip(t: Tables, before: seq<byte>, s: seq<byte>, after: seq<byte>, room: nat)
    requires ValidCode(t) && |s| <= MAX_INTEGER
    ensures var r := DecodeString(t, before + EncodeString(t, s) + after, |before|, room);
            if |s| <= room then r == Ok(Read(s, |before| + |EncodeString(t, s)|))
            else r == Err(StringTooLong) || r == Err(BadHuffman(TooLong))
  {
    hide Encode;
    hide Decode;
    hide EncodeInteger;
    hide DecodeInteger;
    hide ValidCode;
    hide FlagsFit;
    var header, payload := StringHeader(t, s), Payload(t, s);
    var data := before + EncodeString(t, s) + after;
    var position := |before| + |header|;
    StringFlags();
    assert data == before + header + (payload + after);
    IntegerRoundTrip(before, 7, if |Encode(t, s)| < |s| then 0x80 else 0x00, |payload|, payload + after);
    assert data[position..position + |payload|] == payload;
    assert data[|before|] == header[0];
    HeaderFlag(t, s);
    DecodeOfEncode(t, s, room);
  }

  /** Reads at offset into the front of the buffer. The position moves only on success. */
  method DecodeStringAt(t: Tables, data: seq<byte>, offset: nat, buffer: array<byte>)
    returns (next: nat, r: Result<nat, HpackError>)
    requires ValidCode(t)
    modifies buffer
    ensures r.Ok? ==> r.value <= buffer.Length
    ensures r.Ok? ==> DecodeString(t, data, offset, buffer.Length) == Ok(Read(buffer[..r.value], next))
    ensures r.Err? ==> DecodeString(t, data, offset, buffer.Length) == Err(r.error) && next == offset
  {
    hide ValidCode;
    hide Decode;
    hide DecodeInteger;
    if offset >= |data| {
      return offset, Err(TruncatedString);
    }
    var huffman := data[offset] >= 0x80;
    var position, length := DecodeIntegerAt(data, offset, 7);
    if length.Err? {
      return offset, Err(length.error);
    }
    if length.value > |data| - position {
      return offset, Err(TruncatedString);
    }
    var payload := data[position..position + length.value];
    if huffman {
      var size := DecodeHuffman(t, payload, buffer);
      if size.Err? {
        return offset, Err(BadHuffman(size.error));
      }
      return position + length.value, Ok(size.value);
    }
    if length.value > buffer.Length {
      return offset, Err(StringTooLong);
    }
    forall i | 0 <= i < |payload| {
      buffer[i] := payload[i];
    }
    assert buffer[..length.value] == payload;
    return position + length.value, Ok(length.value);
  }

  /** Where a writer ends that writes each piece whole or stops in front of it. */
  ghost function StopAt(offset: nat, limit: nat, pieces: seq<seq<byte>>): nat
    decreases |pieces|
  {
    if pieces == [] || offset + |pieces[0]| > limit then offset
    else StopAt(offset + |pieces[0]|, limit, pieces[1..])
  }

  /**
   * Writes at offset, if the whole string fits. When it does not, the position still moves past the
   * flag and the length if those fit.
   */
  method EncodeStringAt(t: Tables, buffer: array<byte>, offset: nat, value: seq<byte>)
    returns (next: nat, ok: bool)
    requires ValidCode(t) && offset <= buffer.Length
    modifies buffer
    ensures ok <==> offset + |EncodeString(t, value)| <= buffer.Length
    ensures ok ==> next == offset + |EncodeString(t, value)|
    ensures ok ==> Written(buffer[..], old(buffer[..]), offset, EncodeString(t, value))
    ensures next == StopAt(offset, buffer.Length, [StringHeader(t, value), Payload(t, value)])
    ensures buffer[..offset] == old(buffer[..offset])
  {
    hide ValidCode;
    hide Encode;
    hide EncodeInteger;
    hide FlagsFit;
    hide Written;
    hide StopAt;
    StringFlags();
    ghost var header, payload := StringHeader(t, value), Payload(t, value);
    StopAtTwo(offset, buffer.Length, header, payload);
    var huffmanSize := SizeHuffman(t, value);
    if huffmanSize < |value| {
      next, ok := EncodeIntegerAt(buffer, offset, 7, 0x80, huffmanSize);
      if !ok { return; }
      ghost var middle := buffer[..];
      var size := EncodeHuffman(t, value, buffer, next);
      if size == None {
        PrefixThrough(buffer[..], middle, old(buffer[..]), offset, next);
        return next, false;
      }
      WrittenTwice(buffer[..], middle, old(buffer[..]), offset, header, payload);
      return next + size.value, true;
    } else {
      next, ok := EncodeIntegerAt(buffer, offset, 7, 0x00, |value|);
      if !ok { return; }
      if |value| > buffer.Length - next {
        return next, false;
      }
      ghost var middle := buffer[..];
      forall i | 0 <= i < |value| {
        buffer[next + i] := value[i];
      }
      WrittenAt(buffer[..], middle, next, value);
      WrittenTwice(buffer[..], middle, old(buffer[..]), offset, header, payload);
      return next + |value|, true;
    }
  }

  lemma StopAtTwo(offset: nat, limit: nat, a: seq<byte>, b: seq<byte>)
    ensures StopAt(offset, limit, [a, b])
         == if offset + |a| > limit then offset
            else if offset + |a| + |b| > limit then offset + |a|
            else offset + |a| + |b|
  {
    assert [a, b][1..] == [b];
    assert [b][1..] == [];
    var middle := offset + |a|;
    assert StopAt(middle + |b|, limit, []) == middle + |b|;
    assert StopAt(middle, limit, [b]) == if middle + |b| > limit then middle else middle + |b|;
  }

  lemma PrefixThrough(now: seq<byte>, middle: seq<byte>, was: seq<byte>, start: nat, next: nat)
    requires start <= next <= |middle| && |now| == |middle| == |was|
    requires now[..next] == middle[..next] && middle[..start] == was[..start]
    ensures now[..start] == was[..start]
  {
    assert now[..start] == now[..next][..start];
    assert middle[..start] == middle[..next][..start];
  }

  lemma WrittenAt(now: seq<byte>, was: seq<byte>, start: nat, out: seq<byte>)
    requires |now| == |was| && start + |out| <= |was|
    requires forall i :: 0 <= i < |was| ==> now[i] == if start <= i < start + |out| then out[i - start] else was[i]
    ensures Written(now, was, start, out)
  {
  }

  lemma WrittenTwice(now: seq<byte>, middle: seq<byte>, was: seq<byte>, start: nat, a: seq<byte>, b: seq<byte>)
    requires Written(middle, was, start, a) && Written(now, middle, start + |a|, b)
    ensures Written(now, was, start, a + b) && now[..start] == was[..start]
  {
    assert now[..start] == now[..start + |a|][..start];
    assert middle[..start] == middle[..start + |a|][..start];
    assert now[start..start + |a|] == now[..start + |a|][start..];
    assert middle[start..start + |a|] == middle[..start + |a|][start..];
    assert now[start..start + |a + b|] == now[start..start + |a|] + now[start + |a|..start + |a| + |b|];
    assert was[start + |a + b|..] == was[start + |a|..][|b|..];
    assert middle[start + |a + b|..] == middle[start + |a|..][|b|..];
  }
}
