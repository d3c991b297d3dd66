/**
 * The canonical Huffman code of RFC 7541 as a specification: what it means for a set of tables to be
 * a complete canonical code, the coded form of a string and the decoding of a bit string, and the
 * proof that the two are inverse to each other for every set of tables that qualifies.
 */
module HuffmanCode {
  import opened Common
  import opened Bits

  const SYMBOL_COUNT: nat := 257
  const MAX_BITS: nat := 30
  const EOS: nat := 256

  /** The six arrays of the source. */
  datatype Tables = Tables(
    lengths: seq<nat>,
    codes: seq<nat>,
    symbols: seq<nat>,
    counts: seq<nat>,
    firstCode: seq<nat>,
    firstIndex: seq<nat>)

  ghost predicate Shaped(t: Tables) {
    && |t.lengths| == |t.codes| == |t.symbols| == SYMBOL_COUNT
    && |t.counts| == |t.firstCode| == |t.firstIndex| == MAX_BITS + 1
    && t.counts[0] == 0
  }

  /** The first code of a given length in the canonical order, zero sized lengths included. */
  ghost function First(t: Tables, l: nat): nat
    requires Shaped(t) && l <= MAX_BITS
    decreases l, 0
  {
    if l == 0 then 0 else 2 * Next(t, l - 1)
  }

  /** The number that follows the codes of a given length: everything from here on is longer. */
  ghost function Next(t: Tables, l: nat): nat
    requires Shaped(t) && l <= MAX_BITS
    decreases l, 1
  {
    First(t, l) + t.counts[l]
  }

  ghost predicate LengthOk(t: Tables, l: nat)
    requires Shaped(t) && l <= MAX_BITS
  {
    t.counts[l] > 0 ==>
      && t.firstCode[l] == First(t, l)
      && t.firstIndex[l] + t.counts[l] <= SYMBOL_COUNT
  }

  /** The symbol s owns the code found through its own length and code in the decoding tables. */
  ghost predicate SymbolOk(t: Tables, s: nat)
    requires Shaped(t) && s < SYMBOL_COUNT
  {
    var l, c := t.lengths[s], t.codes[s];
    && 1 <= l <= MAX_BITS
    && First(t, l) <= c < Next(t, l)
    && t.firstIndex[l] + (c - First(t, l)) < SYMBOL_COUNT
    && t.symbols[t.firstIndex[l] + (c - First(t, l))] == s
  }

  /** The k-th code of length l belongs to a symbol that has that length and that code. */
  ghost predicate CodeOk(t: Tables, l: nat, k: nat)
    requires Shaped(t) && l <= MAX_BITS
    requires k < t.counts[l] && t.firstIndex[l] + t.counts[l] <= SYMBOL_COUNT
  {
    var s := t.symbols[t.firstIndex[l] + k];
    s < SYMBOL_COUNT && t.lengths[s] == l && t.codes[s] == First(t, l) + k
  }

  /**
   * A complete canonical code: the codes of every length follow each other from the first one, the
   * decoding tables invert the coding ones, and Kraft's sum is exactly one (the last clause).
   */
  ghost predicate ValidCode(t: Tables) {
    && Shaped(t)
    && (forall l :: 0 <= l <= MAX_BITS ==> LengthOk(t, l))
    && (forall s :: 0 <= s < SYMBOL_COUNT ==> SymbolOk(t, s))
    && (forall l, k :: 0 <= l <= MAX_BITS && 0 <= k < t.counts[l] && LengthOk(t, l) ==> CodeOk(t, l, k))
    && t.lengths[EOS] == MAX_BITS && t.codes[EOS] == Shl(1, MAX_BITS) - 1
    && Next(t, MAX_BITS) == Shl(1, MAX_BITS)
  }

  /** The code of one symbol. */
  ghost function CodeBits(t: Tables, s: nat): (w: seq<bit>)
    requires ValidCode(t) && s < SYMBOL_COUNT
    ensures |w| == t.lengths[s]
  {
    BitsOf(t.codes[s], t.lengths[s])
  }

  /** The codes of a string, one after the other. */
  ghost function CodedBits(t: Tables, s: seq<byte>): seq<bit>
    requires ValidCode(t)
  {
    if s == [] then [] else CodeBits(t, s[0]) + CodedBits(t, s[1..])
  }

  function PadSize(n: nat): (k: nat)
    ensures k <= 7 && (n + k) % 8 == 0
  {
    (8 - n % 8) % 8
  }

  /** The coded form of a string: its codes, then ones up to the end of the byte. */
  ghost function Encode(t: Tables, s: seq<byte>): seq<byte>
    requires ValidCode(t)
  {
    var w := CodedBits(t, s);
    Pack(w + Ones(PadSize(|w|)))
  }

  datatype HuffmanError = InvalidCode | EndOfString | TooLong | PaddingAboveByte | InvalidPadding

  type Decoded = Result<seq<byte>, HuffmanError>

  /** The lookup of the source: the symbol of an accumulated code of n bits, if it is one. */
  function Lookup(t: Tables, n: nat, code: nat): (r: Option<nat>)
    requires ValidCode(t) && n <= MAX_BITS
    ensures r.Some? ==> r.value < SYMBOL_COUNT && t.lengths[r.value] == n && t.codes[r.value] == code
    ensures r.None? <==> code < First(t, n) || code >= Next(t, n)
  {
    if t.counts[n] == 0 then None else
    var first := t.firstCode[n];
    assert LengthOk(t, n);
    if code < first || code - first >= t.counts[n] then None else
    assert CodeOk(t, n, code - first);
    Some(t.symbols[t.firstIndex[n] + (code - first)])
  }

  /** Puts what is already decoded in front of the rest. */
  function Prepend(out: seq<byte>, r: Decoded): Decoded {
    match r
    case Ok(s) => Ok(out + s)
    case Err(e) => Err(e)
  }

  /**
   * Decoding bit by bit, from a state where n bits have accumulated to the given code and there is
   * room for that many more bytes.
   */
  function DecodeBits(t: Tables, w: seq<bit>, code: nat, n: nat, room: nat): (r: Decoded)
    requires ValidCode(t) && n <= MAX_BITS
    ensures r.Ok? ==> |r.value| <= room
    decreases |w|
  {
    if w == [] then
      if n > 7 then Err(PaddingAboveByte)
      else if n > 0 && code != Shl(1, n) - 1 then Err(InvalidPadding)
      else Ok([])
    else
      var c, m := 2 * code + w[0], n + 1;
      if m > MAX_BITS then Err(InvalidCode) else
      match Lookup(t, m, c)
      case None => DecodeBits(t, w[1..], c, m, room)
      case Some(s) =>
        if s == EOS then Err(EndOfString)
        else if room == 0 then Err(TooLong)
        else Prepend([s], DecodeBits(t, w[1..], 0, 0, room - 1))
  }

  function Decode(t: Tables, d: seq<byte>, room: nat): (r: Decoded)
    requires ValidCode(t)
    ensures r.Ok? ==> |r.value| <= room
  {
    DecodeBits(t, Unpack(d), 0, 0, room)
  }

  // ---- No code is a prefix of another -------------------------------------------------------

  /** The states the decoder can rest in: n bits that no code of at most n bits begins. */
  ghost predicate Pending(t: Tables, code: nat, n: nat)
    requires Shaped(t)
  {
    n <= MAX_BITS && Next(t, n) <= code < Shl(1, n)
  }

  /** Every proper prefix of a code lies beyond the codes of its own length. */
  lemma {:induction false} PrefixPending(t: Tables, code: nat, l: nat, n: nat)
    requires ValidCode(t) && n < l <= MAX_BITS
    requires First(t, l) <= code < Shl(1, l)
    ensures Pending(t, Shr(code, l - n), n)
    decreases l
  {
    assert code / 2 >= Next(t, l - 1);
    if n < l - 1 { PrefixPending(t, code / 2, l - 1, n); }
  }

  lemma PrefixMisses(t: Tables, code: nat, l: nat, n: nat)
    requires ValidCode(t) && n < l <= MAX_BITS
    requires First(t, l) <= code < Shl(1, l)
    ensures Lookup(t, n, Shr(code, l - n)).None?
  {
    PrefixPending(t, code, l, n);
  }

  lemma {:induction false} NextBound(t: Tables, l: nat)
    requires ValidCode(t) && l <= MAX_BITS
    ensures Next(t, l) <= Shl(1, l)
    decreases MAX_BITS - l
  {
    if l < MAX_BITS {
      NextBound(t, l + 1);
    }
  }

  lemma CodeFits(t: Tables, s: nat)
    requires ValidCode(t) && s < SYMBOL_COUNT
    ensures 1 <= t.lengths[s] <= MAX_BITS
    ensures First(t, t.lengths[s]) <= t.codes[s] < Next(t, t.lengths[s]) <= Shl(1, t.lengths[s])
    ensures Lookup(t, t.lengths[s], t.codes[s]) == Some(s)
  {
    assert SymbolOk(t, s);
    assert LengthOk(t, t.lengths[s]);
    NextBound(t, t.lengths[s]);
  }

  /**
   * Completeness of the code: at 29 pending bits the next one always ends a symbol, so the decoder
   * never accumulates a thirty-first bit.
   */
  lemma PendingShort(t: Tables, code: nat, n: nat)
    requires ValidCode(t) && Pending(t, code, n)
    ensures n < MAX_BITS
  {
  }

  lemma PendingStep(t: Tables, code: nat, n: nat, b: bit)
    requires ValidCode(t) && Pending(t, code, n)
    ensures n < MAX_BITS
    ensures Lookup(t, n + 1, 2 * code + b).None? ==> Pending(t, 2 * code + b, n + 1)
  {
    PendingShort(t, code, n);
  }

  /** On any bits at all, the rejection of an over-long code is never taken. */
  lemma {:induction false} NeverInvalid(t: Tables, w: seq<bit>, code: nat, n: nat, room: nat)
    requires ValidCode(t) && Pending(t, code, n)
    ensures DecodeBits(t, w, code, n, room) != Err(InvalidCode)
    decreases |w|
  {
    if w != [] {
      PendingStep(t, code, n, w[0]);
      PendingStart(t);
      var found := Lookup(t, n + 1, 2 * code + w[0]);
      if found == None {
        NeverInvalid(t, w[1..], 2 * code + w[0], n + 1, room);
      } else if found.value != EOS && room > 0 {
        NeverInvalid(t, w[1..], 0, 0, room - 1);
      }
    }
  }

  lemma CodeIsComplete(t: Tables, d: seq<byte>, room: nat)
    requires ValidCode(t)
    ensures Decode(t, d, room) != Err(InvalidCode)
  {
    assert Pending(t, 0, 0);
    NeverInvalid(t, Unpack(d), 0, 0, room);
  }

  // ---- Decoding what was encoded ------------------------------------------------------------

  /** Reading the last l - n bits of a code from its first n bits reaches the code itself. */
  lemma {:induction false} ReadPrefix(t: Tables, code: nat, l: nat, n: nat, rest: seq<bit>, room: nat)
    requires ValidCode(t) && n < l <= MAX_BITS
    requires First(t, l) <= code < Shl(1, l)
    ensures DecodeBits(t, BitsOf(code, l - n) + rest, Shr(code, l - n), n, room)
         == DecodeBits(t, [code % 2] + rest, code / 2, l - 1, room)
    decreases l - n
  {
    hide *;
    if n == l - 1 {
      OneBit(code);
    } else {
      var k := l - n;
      HeadBit(code, k);
      var w := BitsOf(code, k) + rest;
      assert w[1..] == BitsOf(code, k - 1) + rest;
      PrefixMisses(t, code, l, n + 1);
      ReadOne(t, w, Shr(code, k), n, room);
      ReadPrefix(t, code, l, n + 1, rest, room);
    }
  }

  lemma ReadOne(t: Tables, w: seq<bit>, code: nat, n: nat, room: nat)
    requires ValidCode(t) && n < MAX_BITS && w != []
    requires Lookup(t, n + 1, 2 * code + w[0]).None?
    ensures DecodeBits(t, w, code, n, room) == DecodeBits(t, w[1..], 2 * code + w[0], n + 1, room)
  {
  }

  /** A whole code followed by anything is read as its symbol. */
  lemma ReadSymbol(t: Tables, s: byte, rest: seq<bit>, room: nat)
    requires ValidCode(t)
    ensures DecodeBits(t, CodeBits(t, s) + rest, 0, 0, room)
         == if room == 0 then Err(TooLong) else Prepend([s], DecodeBits(t, rest, 0, 0, room - 1))
  {
    CodeFits(t, s);
    var l, code := t.lengths[s], t.codes[s];
    LowSmall(code, l);
    ReadPrefix(t, code, l, 0, rest, room);
    ReadLast(t, s, [code % 2] + rest, rest, room);
  }

  /** The last bit of a code. */
  lemma ReadLast(t: Tables, s: byte, w: seq<bit>, rest: seq<bit>, room: nat)
    requires ValidCode(t) && w == [t.codes[s] % 2] + rest
    ensures 1 <= t.lengths[s] <= MAX_BITS
    ensures DecodeBits(t, w, t.codes[s] / 2, t.lengths[s] - 1, room)
         == if room == 0 then Err(TooLong) else Prepend([s], DecodeBits(t, rest, 0, 0, room - 1))
  {
    CodeFits(t, s);
    assert w[1..] == rest && 2 * (t.codes[s] / 2) + w[0] == t.codes[s];
  }

  /** Ones alone complete no symbol before the end-of-string code is whole. */
  lemma OnesPending(t: Tables, n: nat)
    requires ValidCode(t) && n < MAX_BITS
    ensures Pending(t, Shl(1, n) - 1, n) && Lookup(t, n, Shl(1, n) - 1).None?
  {
    CodeFits(t, EOS);
    PrefixPending(t, t.codes[EOS], MAX_BITS, n);
    ShrOnes(MAX_BITS, MAX_BITS - n);
  }

  /** So the padding is accepted. */
  lemma {:induction false} ReadPadding(t: Tables, k: nat, n: nat, room: nat)
    requires ValidCode(t) && n + k <= 7
    ensures DecodeBits(t, Ones(k), Shl(1, n) - 1, n, room) == Ok([])
    decreases k
  {
    if k == 0 {
      assert Ones(0) == [];
    } else {
      OnesPending(t, n + 1);
      hide *;
      OnesHead(k, n);
      ReadOne(t, Ones(k), Shl(1, n) - 1, n, room);
      ReadPadding(t, k - 1, n + 1, room);
    }
  }

  lemma OnesHead(k: nat, n: nat)
    requires k > 0
    ensures Ones(k) != [] && Ones(k)[0] == 1 && Ones(k)[1..] == Ones(k - 1)
    ensures Shl(1, n) >= 1 && 2 * (Shl(1, n) - 1) + 1 == Shl(1, n + 1) - 1
  {
  }

  lemma {:induction false} ShrOnes(l: nat, k: nat)
    requires k <= l
    ensures Shr(Shl(1, l) - 1, k) == Shl(1, l - k) - 1
  {
    if k > 0 {
      assert (Shl(1, l) - 1) / 2 == Shl(1, l - 1) - 1;
      ShrOnes(l - 1, k - 1);
    }
  }

  /** Codes and padding decode to the string when there is room, and to an error when there is not. */
  lemma {:induction false} DecodeCoded(t: Tables, s: seq<byte>, k: nat, room: nat)
    requires ValidCode(t) && k <= 7
    ensures DecodeBits(t, CodedBits(t, s) + Ones(k), 0, 0, room)
         == if |s| <= room then Ok(s) else Err(TooLong)
  {
    if s == [] {
      assert CodedBits(t, s) + Ones(k) == Ones(k);
      ReadPadding(t, k, 0, room);
    } else {
      var rest := CodedBits(t, s[1..]) + Ones(k);
      assert CodedBits(t, s) + Ones(k) == CodeBits(t, s[0]) + rest;
      hide DecodeBits;
      ReadSymbol(t, s[0], rest, room);
      if room > 0 {
        DecodeCoded(t, s[1..], k, room - 1);
        assert [s[0]] + s[1..] == s;
      }
    }
  }

  // ---- Encoding what was decoded ------------------------------------------------------------

  /** Whatever decodes is the coded form of the result and at most seven ones of padding. */
  lemma {:induction false} DecodedIsCoded(t: Tables, w: seq<bit>, code: nat, n: nat, room: nat) returns (k: nat)
    requires ValidCode(t) && Pending(t, code, n)
    requires DecodeBits(t, w, code, n, room).Ok?
    ensures k <= 7
    ensures BitsOf(code, n) + w == CodedBits(t, DecodeBits(t, w, code, n, room).value) + Ones(k)
    decreases |w|
  {
    hide *;
    if w == [] {
      k := n;
      PendingShort(t, code, n);
      EndOk(t, w, code, n, room);
    } else {
      PendingStep(t, code, n, w[0]);
      var c := 2 * code + w[0];
      ShiftIn(code, n, w);
      var found := Lookup(t, n + 1, c);
      if found == None {
        ReadOne(t, w, code, n, room);
        k := DecodedIsCoded(t, w[1..], c, n + 1, room);
      } else {
        StepOk(t, w, code, n, room);
        PendingStart(t);
        k := DecodedIsCoded(t, w[1..], 0, 0, room - 1);
        AfterSymbol(t, found.value, w[1..], DecodeBits(t, w[1..], 0, 0, room - 1).value, k);
      }
    }
  }

  lemma PendingStart(t: Tables)
    requires ValidCode(t)
    ensures Pending(t, 0, 0)
  {
  }

  lemma EndOk(t: Tables, w: seq<bit>, code: nat, n: nat, room: nat)
    requires ValidCode(t) && n <= MAX_BITS && w == []
    requires DecodeBits(t, w, code, n, room).Ok?
    ensures n <= 7 && DecodeBits(t, w, code, n, room).value == []
    ensures BitsOf(code, n) + w == CodedBits(t, []) + Ones(n)
  {
    OnesBits(n);
    assert BitsOf(code, n) + w == BitsOf(code, n);
  }

  /** A bit that ends a symbol, in a decoding that succeeds. */
  lemma StepOk(t: Tables, w: seq<bit>, code: nat, n: nat, room: nat)
    requires ValidCode(t) && n < MAX_BITS && w != []
    requires Lookup(t, n + 1, 2 * code + w[0]).Some?
    requires DecodeBits(t, w, code, n, room).Ok?
    ensures var s := Lookup(t, n + 1, 2 * code + w[0]).value;
            && s < 256 && room > 0
            && BitsOf(2 * code + w[0], n + 1) == CodeBits(t, s)
            && DecodeBits(t, w[1..], 0, 0, room - 1).Ok?
            && var r := DecodeBits(t, w[1..], 0, 0, room - 1).value;
               DecodeBits(t, w, code, n, room).value == [s] + r && |[s] + r| == 1 + |r|
  {
  }

  /** Taking a bit from the input into the accumulated code keeps the two together unchanged. */
  lemma ShiftIn(code: nat, n: nat, w: seq<bit>)
    requires w != []
    ensures BitsOf(code, n) + w == BitsOf(2 * code + w[0], n + 1) + w[1..]
  {
    var c := 2 * code + w[0];
    assert c / 2 == code && c % 2 == w[0];
    assert BitsOf(c, n + 1) == BitsOf(code, n) + [w[0]];
  }

  lemma AfterSymbol(t: Tables, s: byte, w: seq<bit>, r: seq<byte>, k: nat)
    requires ValidCode(t)
    requires BitsOf(0, 0) + w == CodedBits(t, r) + Ones(k)
    ensures CodeBits(t, s) + w == CodedBits(t, [s] + r) + Ones(k)
  {
    assert BitsOf(0, 0) + w == w;
    assert ([s] + r)[1..] == r;
  }

  // ---- The two together ---------------------------------------------------------------------

  /** The padding that completes a byte is the only one of at most seven bits. */
  lemma PadUnique(n: nat, k: nat)
    requires k <= 7 && (n + k) % 8 == 0
    ensures k == PadSize(n)
  {
  }

  /** The decoder accepts exactly the coded forms, and returns the string that was coded. */
  lemma DecodeExact(t: Tables, d: seq<byte>, s: seq<byte>, room: nat)
    requires ValidCode(t)
    ensures Decode(t, d, room) == Ok(s) <==> d == Encode(t, s) && |s| <= room
  {
    hide DecodeBits;
    if Decode(t, d, room) == Ok(s) {
      PendingStart(t);
      var k := DecodedIsCoded(t, Unpack(d), 0, 0, room);
      assert BitsOf(0, 0) + Unpack(d) == Unpack(d);
      PadUnique(|CodedBits(t, s)|, k);
      PackUnpack(d);
    }
    if d == Encode(t, s) && |s| <= room {
      DecodeOfEncode(t, s, room);
    }
  }

  /** Round trip, with the one error a coded form can meet. */
  lemma DecodeOfEncode(t: Tables, s: seq<byte>, room: nat)
    requires ValidCode(t)
    ensures Decode(t, Encode(t, s), room) == if |s| <= room then Ok(s) else Err(TooLong)
  {
    var w := CodedBits(t, s);
    UnpackPack(w + Ones(PadSize(|w|)));
    DecodeCoded(t, s, PadSize(|w|), room);
  }

  /** No two strings share a coded form. */
  lemma EncodeInjective(t: Tables, a: seq<byte>, b: seq<byte>)
    requires ValidCode(t) && Encode(t, a) == Encode(t, b)
    ensures a == b
  {
    hide *;
    DecodeOfEncode(t, a, |a| + |b|);
    DecodeOfEncode(t, b, |a| + |b|);
  }

  lemma {:induction false} CodedBitsConcat(t: Tables, a: seq<byte>, b: seq<byte>)
    requires ValidCode(t)
    ensures CodedBits(t, a + b) == CodedBits(t, a) + CodedBits(t, b)
  {
    if a == [] {
      assert a + b == b;
    } else {
      assert (a + b)[1..] == a[1..] + b;
      CodedBitsConcat(t, a[1..], b);
    }
  }
}
