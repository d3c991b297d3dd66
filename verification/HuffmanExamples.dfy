/** Known answers of Appendix C of RFC 7541 for the Huffman tables of the server. */
module HuffmanExamples {
  import opened Common
  import opened Bits
  import opened HuffmanCode
  import opened HuffmanTables
  import opened HuffmanRfc

  /** One more symbol in front of others. */
  lemma CodedNext(b: byte, s: seq<byte>, w: seq<bit>)
    requires ValidCode(RFC7541) && CodedBits(RFC7541, s) == w
    ensures CodedBits(RFC7541, [b] + s) == BitsOf(Code(b), Length(b)) + w
  {
    hide ValidCode;
    hide BitsOf;
    hide Code;
    hide Length;
    assert ([b] + s)[1..] == s;
  }

  function Octet(o: seq<bit>): byte
    requires |o| == 8
  {
    Quad(o[..4]) * 16 + Quad(o[4..])
  }

  function Quad(o: seq<bit>): (v: nat)
    requires |o| == 4
    ensures v < 16
  {
    (o[0] as int) * 8 + (o[1] as int) * 4 + (o[2] as int) * 2 + o[3] as int
  }

  lemma QuadValue(o: seq<bit>)
    requires |o| == 4
    ensures Value(o) == Quad(o)
  {
    assert o[..3][..2] == o[..2] && o[..2][..1] == o[..1] && o[..1][..0] == [];
    assert Value(o[..1]) == o[0];
    assert Value(o[..2]) == 2 * Value(o[..1]) + o[1];
    assert Value(o[..3]) == 2 * Value(o[..2]) + o[2];
    assert Value(o) == 2 * Value(o[..3]) + o[3];
  }

  lemma OctetValue(o: seq<bit>)
    requires |o| == 8
    ensures Value(o) == Octet(o)
  {
    QuadValue(o[..4]);
    assert o[..7][..6] == o[..6] && o[..6][..5] == o[..5] && o[..5][..4] == o[..4];
    assert Value(o[..5]) == 2 * Value(o[..4]) + o[4];
    assert Value(o[..6]) == 2 * Value(o[..5]) + o[5];
    assert Value(o[..7]) == 2 * Value(o[..6]) + o[6];
  }

  /** One more byte in front of others. */
  lemma PackNext(o: seq<bit>, w: seq<bit>)
    requires |o| == 8 && |w| % 8 == 0
    ensures Pack(o + w) == [Octet(o)] + Pack(w)
  {
    hide Octet;
    assert (o + w)[..8] == o && (o + w)[8..] == w;
    OctetValue(o);
  }

  lemma LowCodes()
    ensures Code(51) == 0x19 && Length(51) == 6
    ensures Code(48) == 0x0 && Length(48) == 5
    ensures Code(50) == 0x2 && Length(50) == 5
  {
  }

  lemma LetterCodes()
    ensures Code(111) == 0x7 && Length(111) == 5
    ensures Code(99) == 0x4 && Length(99) == 5
    ensures Code(97) == 0x3 && Length(97) == 5
  {
  }

  lemma LastCodes()
    ensures Code(101) == 0x5 && Length(101) == 5
  {
  }

  lemma NCode()
    ensures Code(110) == 0x2a && Length(110) == 6
  {
  }

  lemma HCode()
    ensures Code(104) == 0x27 && Length(104) == 6
  {
  }

  lemma HyphenCode()
    ensures Code(45) == 0x16 && Length(45) == 6
  {
  }

  lemma BitsLast(v: nat, n: nat)
    requires n > 0
    ensures BitsOf(v, n) == BitsOf(v / 2, n - 1) + [v % 2] && BitsOf(v, 0) == []
  {
  }

  /** A number of five bits, and one of six, bit by bit. */
  lemma FiveBits(v: nat, b: nat, c: nat, d: nat, e: nat, f: nat)
    requires b < 2 && c < 2 && d < 2 && e < 2 && f < 2 && v == 16 * b + 8 * c + 4 * d + 2 * e + f
    ensures BitsOf(v, 5) == [b, c, d, e, f]
  {
    hide BitsOf;
    BitsLast(v, 5);
    BitsLast(8 * b + 4 * c + 2 * d + e, 4);
    BitsLast(4 * b + 2 * c + d, 3);
    BitsLast(2 * b + c, 2);
    BitsLast(b, 1);
  }

  lemma SixBits(v: nat, a: nat, b: nat, c: nat, d: nat, e: nat, f: nat)
    requires a < 2 && b < 2 && c < 2 && d < 2 && e < 2 && f < 2
    requires v == 32 * a + 16 * b + 8 * c + 4 * d + 2 * e + f
    ensures BitsOf(v, 6) == [a, b, c, d, e, f]
  {
    hide BitsOf;
    BitsLast(v, 6);
    FiveBits(16 * a + 8 * b + 4 * c + 2 * d + e, a, b, c, d, e);
  }

  /** Codes of symbols as Appendix B lists them. */
  lemma CodesListed()
    ensures BitsOf(Code(51), Length(51)) == [0, 1, 1, 0, 0, 1]
    ensures BitsOf(Code(48), Length(48)) == [0, 0, 0, 0, 0]
    ensures BitsOf(Code(50), Length(50)) == [0, 0, 0, 1, 0]
    ensures BitsOf(Code(110), Length(110)) == [1, 0, 1, 0, 1, 0]
    ensures BitsOf(Code(111), Length(111)) == [0, 0, 1, 1, 1]
    ensures BitsOf(Code(99), Length(99)) == [0, 0, 1, 0, 0]
    ensures BitsOf(Code(97), Length(97)) == [0, 0, 0, 1, 1]
    ensures BitsOf(Code(104), Length(104)) == [1, 0, 0, 1, 1, 1]
    ensures BitsOf(Code(101), Length(101)) == [0, 0, 1, 0, 1]
    ensures BitsOf(Code(45), Length(45)) == [0, 1, 0, 1, 1, 0]
  {
    hide *;
    SixBits(0x19, 0, 1, 1, 0, 0, 1);
    FiveBits(0x0, 0, 0, 0, 0, 0);
    FiveBits(0x2, 0, 0, 0, 1, 0);
    SixBits(0x2a, 1, 0, 1, 0, 1, 0);
    FiveBits(0x7, 0, 0, 1, 1, 1);
    FiveBits(0x4, 0, 0, 1, 0, 0);
    FiveBits(0x3, 0, 0, 0, 1, 1);
    SixBits(0x27, 1, 0, 0, 1, 1, 1);
    FiveBits(0x5, 0, 0, 1, 0, 1);
    SixBits(0x16, 0, 1, 0, 1, 1, 0);
    LowCodes();
    LetterCodes();
    LastCodes();
    NCode();
    HCode();
    HyphenCode();
  }

  lemma CodedNone()
    requires ValidCode(RFC7541)
    ensures CodedBits(RFC7541, []) == []
  {
    hide ValidCode;
  }

  lemma PadIs(n: nat, pad: nat)
    requires (n + pad) % 8 == 0 && pad < 8
    ensures PadSize(n) == pad
  {
  }

  lemma EncodeIs(t: Tables, s: seq<byte>, w: seq<bit>, pad: nat)
    requires ValidCode(t) && CodedBits(t, s) == w && (|w| + pad) % 8 == 0 && pad < 8
    ensures Encode(t, s) == Pack(w + Ones(pad))
  {
    hide ValidCode;
    hide CodedBits;
    hide PadSize;
    hide Pack;
    hide Ones;
    PadIs(|w|, pad);
  }

  lemma PackNone()
    ensures Pack([]) == []
  {
  }

  lemma OnesAre()
    ensures Ones(0) == [] && Ones(5) == [1, 1, 1, 1, 1]
  {
  }

  lemma Status302Octets()
    ensures Octet([0, 1, 1, 0, 0, 1, 0, 0]) == 0x64
    ensures Octet([0, 0, 0, 0, 0, 0, 1, 0]) == 0x02
  {
  }

  lemma Status302Bits()
    ensures [0, 1, 1, 0, 0, 1] + ([0, 0, 0, 0, 0] + ([0, 0, 0, 1, 0] + [])) + [] ==
            [0, 1, 1, 0, 0, 1, 0, 0] + ([0, 0, 0, 0, 0, 0, 1, 0] + [])
  {
  }

  /** The string literal of C.6.1: a status of 302. */
  lemma Status302()
    ensures ValidCode(RFC7541) && Encode(RFC7541, [51, 48, 50]) == [0x64, 0x02]
  {
    hide *;
    Rfc7541Valid();
    CodedNone();
    PackNone();
    OnesAre();
    CodesListed();
    Status302Octets();
    Status302Bits();
    var s3: seq<byte>, w3: seq<bit> := [], [];
    CodedNext(50, s3, w3);
    var s2: seq<byte>, w2: seq<bit> := [50] + s3, [0, 0, 0, 1, 0] + w3;
    CodedNext(48, s2, w2);
    var s1: seq<byte>, w1: seq<bit> := [48] + s2, [0, 0, 0, 0, 0] + w2;
    CodedNext(51, s1, w1);
    var s0: seq<byte>, w0: seq<bit> := [51] + s1, [0, 1, 1, 0, 0, 1] + w1;
    assert s0 == [51, 48, 50];
    EncodeIs(RFC7541, s0, w0, 0);
    var o2: seq<bit> := [];
    PackNext([0, 0, 0, 0, 0, 0, 1, 0], o2);
    var o1: seq<bit> := [0, 0, 0, 0, 0, 0, 1, 0] + o2;
    PackNext([0, 1, 1, 0, 0, 1, 0, 0], o1);
    var o0: seq<bit> := [0, 1, 1, 0, 0, 1, 0, 0] + o1;
    assert w0 + Ones(0) == o0;
  }

  lemma NoCacheOctets()
    ensures Octet([1, 0, 1, 0, 1, 0, 0, 0]) == 0xa8
    ensures Octet([1, 1, 1, 0, 1, 0, 1, 1]) == 0xeb
    ensures Octet([0, 0, 0, 1, 0, 0, 0, 0]) == 0x10
    ensures Octet([0, 1, 1, 0, 0, 1, 0, 0]) == 0x64
    ensures Octet([1, 0, 0, 1, 1, 1, 0, 0]) == 0x9c
    ensures Octet([1, 0, 1, 1, 1, 1, 1, 1]) == 0xbf
  {
  }

  lemma NoCacheBits()
    ensures [1, 0, 1, 0, 1, 0] + ([0, 0, 1, 1, 1] + ([0, 1, 0, 1, 1, 0] + ([0, 0, 1, 0, 0] + ([0, 0, 0, 1, 1]
            + ([0, 0, 1, 0, 0] + ([1, 0, 0, 1, 1, 1] + ([0, 0, 1, 0, 1] + [])))))))
            + [1, 1, 1, 1, 1] ==
            [1, 0, 1, 0, 1, 0, 0, 0] + ([1, 1, 1, 0, 1, 0, 1, 1] + ([0, 0, 0, 1, 0, 0, 0, 0]
            + ([0, 1, 1, 0, 0, 1, 0, 0] + ([1, 0, 0, 1, 1, 1, 0, 0] + ([1, 0, 1, 1, 1, 1, 1, 1] + [])))))
  {
  }

  /** The string literal of C.4.2: no-cache. */
  lemma NoCache()
    ensures ValidCode(RFC7541)
    ensures Encode(RFC7541, [110, 111, 45, 99, 97, 99, 104, 101]) == [0xa8, 0xeb, 0x10, 0x64, 0x9c, 0xbf]
  {
    hide *;
    Rfc7541Valid();
    CodedNone();
    PackNone();
    OnesAre();
    CodesListed();
    NoCacheOctets();
    NoCacheBits();
    var s8: seq<byte>, w8: seq<bit> := [], [];
    CodedNext(101, s8, w8);
    var s7: seq<byte>, w7: seq<bit> := [101] + s8, [0, 0, 1, 0, 1] + w8;
    CodedNext(104, s7, w7);
    var s6: seq<byte>, w6: seq<bit> := [104] + s7, [1, 0, 0, 1, 1, 1] + w7;
    CodedNext(99, s6, w6);
    var s5: seq<byte>, w5: seq<bit> := [99] + s6, [0, 0, 1, 0, 0] + w6;
    CodedNext(97, s5, w5);
    var s4: seq<byte>, w4: seq<bit> := [97] + s5, [0, 0, 0, 1, 1] + w5;
    CodedNext(99, s4, w4);
    var s3: seq<byte>, w3: seq<bit> := [99] + s4, [0, 0, 1, 0, 0] + w4;
    CodedNext(45, s3, w3);
    var s2: seq<byte>, w2: seq<bit> := [45] + s3, [0, 1, 0, 1, 1, 0] + w3;
    CodedNext(111, s2, w2);
    var s1: seq<byte>, w1: seq<bit> := [111] + s2, [0, 0, 1, 1, 1] + w2;
    CodedNext(110, s1, w1);
    var s0: seq<byte>, w0: seq<bit> := [110] + s1, [1, 0, 1, 0, 1, 0] + w1;
    assert s0 == [110, 111, 45, 99, 97, 99, 104, 101];
    EncodeIs(RFC7541, s0, w0, 5);
    var o6: seq<bit> := [];
    PackNext([1, 0, 1, 1, 1, 1, 1, 1], o6);
    var o5: seq<bit> := [1, 0, 1, 1, 1, 1, 1, 1] + o6;
    PackNext([1, 0, 0, 1, 1, 1, 0, 0], o5);
    var o4: seq<bit> := [1, 0, 0, 1, 1, 1, 0, 0] + o5;
    PackNext([0, 1, 1, 0, 0, 1, 0, 0], o4);
    var o3: seq<bit> := [0, 1, 1, 0, 0, 1, 0, 0] + o4;
    PackNext([0, 0, 0, 1, 0, 0, 0, 0], o3);
    var o2: seq<bit> := [0, 0, 0, 1, 0, 0, 0, 0] + o3;
    PackNext([1, 1, 1, 0, 1, 0, 1, 1], o2);
    var o1: seq<bit> := [1, 1, 1, 0, 1, 0, 1, 1] + o2;
    PackNext([1, 0, 1, 0, 1, 0, 0, 0], o1);
    var o0: seq<bit> := [1, 0, 1, 0, 1, 0, 0, 0] + o1;
    assert w0 + Ones(5) == o0;
  }
}
