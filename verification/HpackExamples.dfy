/** Known answers of Appendix A and Appendix C of RFC 7541 for the tables of the server. */
module HpackExamples {
  import opened Common
  import opened Bits
  import opened HuffmanCode
  import opened HpackInteger
  import opened HpackTable
  import opened Hpack
  import opened HpackForms
  import opened HpackStatic

  function Plain(name: string, value: string): Field {
    Field(Ascii(name), Ascii(value))
  }

  lemma EntryAt(index: nat)
    requires 1 <= index <= 61
    ensures |STATIC_TABLE| == 61 && STATIC_TABLE[index - 1] == StaticAt(index)
  {
    hide StaticAt;
  }

  /** Entries of the static table with their value, by index. */
  lemma StaticKnown()
    ensures |STATIC_TABLE| == 61
    ensures STATIC_TABLE[2 - 1] == Plain(":method", "GET") && STATIC_TABLE[3 - 1] == Plain(":method", "POST")
    ensures STATIC_TABLE[4 - 1] == Plain(":path", "/") && STATIC_TABLE[5 - 1] == Plain(":path", "/index.html")
    ensures STATIC_TABLE[6 - 1] == Plain(":scheme", "http") && STATIC_TABLE[7 - 1] == Plain(":scheme", "https")
    ensures STATIC_TABLE[8 - 1] == Plain(":status", "200") && STATIC_TABLE[11 - 1] == Plain(":status", "304")
    ensures STATIC_TABLE[14 - 1] == Plain(":status", "500")
  {
    hide STATIC_TABLE;
    hide Ascii;
    EntryAt(2);
    EntryAt(3);
    EntryAt(4);
    EntryAt(5);
    EntryAt(6);
    EntryAt(7);
    EntryAt(8);
    EntryAt(11);
    EntryAt(14);
  }

  /** Entries of which Appendix C uses the name alone. */
  lemma StaticNamesKnown()
    ensures |STATIC_TABLE| == 61
    ensures STATIC_TABLE[1 - 1] == Plain(":authority", "") && STATIC_TABLE[24 - 1] == Plain("cache-control", "")
    ensures STATIC_TABLE[26 - 1] == Plain("content-encoding", "") && STATIC_TABLE[33 - 1] == Plain("date", "")
  {
    hide STATIC_TABLE;
    hide Ascii;
    EntryAt(1);
    EntryAt(24);
    EntryAt(26);
    EntryAt(33);
  }

  lemma LastNamesKnown()
    ensures |STATIC_TABLE| == 61
    ensures STATIC_TABLE[55 - 1] == Plain("set-cookie", "") && STATIC_TABLE[61 - 1] == Plain("www-authenticate", "")
  {
    hide STATIC_TABLE;
    hide Ascii;
    EntryAt(55);
    EntryAt(61);
  }

  lemma LaterNamesKnown()
    ensures |STATIC_TABLE| == 61
    ensures STATIC_TABLE[46 - 1] == Plain("location", "") && STATIC_TABLE[55 - 1] == Plain("set-cookie", "")
    ensures STATIC_TABLE[61 - 1] == Plain("www-authenticate", "")
  {
    hide STATIC_TABLE;
    hide Ascii;
    EntryAt(46);
    hide StaticAt;
    LastNamesKnown();
  }

  lemma ShortString(t: Tables, s: seq<byte>)
    requires ValidCode(t) && |s| < 127
    ensures StringForm(t, [|s|] + s, s)
  {
    hide ValidCode;
    ShortInteger(|s|);
    var bs := [|s|] + s;
    assert bs[..1] == [|s|] && bs[1..] == s;
    assert LiteralParts(t, bs[..1], bs[1..], s);
  }

  lemma ShortInteger(b: byte)
    requires b < 127
    ensures Represents([b], 7, b)
  {
    LowSeven(b);
  }

  lemma LowSeven(b: byte)
    requires b < 128
    ensures Low(b, 7) == b && Mask(7) == 127
  {
    assert Shl(1, 7) == 128;
    LowSmall(b, 7);
  }

  /** A literal with everything in its shortest plain form. */
  function ShortLiteral(first: byte, index: nat, f: Field): seq<byte>
    requires |f.name| < 127 && |f.value| < 127
  {
    [first] + (if index == 0 then [|f.name|] + f.name else []) + ([|f.value|] + f.value)
  }

  lemma ShortLiteralForm(c: Config, ts: TableState, first: byte, prefix: nat, index: nat, f: Field)
    requires ValidConfig(c) && |f.name| < 127 && |f.value| < 127 && |f.name| <= c.maxName && |f.value| <= c.maxValue
    requires Represents([first], prefix, index)
    requires index > 0 ==> index <= |c.staticTable| && c.staticTable[index - 1].name == f.name
    ensures LiteralForm(c, ts, ShortLiteral(first, index, f), prefix, f)
  {
    hide Represents;
    hide StringForm;
    hide ValidCode;
    ShortString(c.code, f.name);
    ShortString(c.code, f.value);
    var bs, j := ShortLiteral(first, index, f), if index == 0 then 2 + |f.name| else 1;
    assert bs[..1] == [first] && bs[j..] == [|f.value|] + f.value;
    assert bs[1..j] == if index == 0 then [|f.name|] + f.name else [];
    assert LiteralSplit(c, ts, bs, prefix, f, 1, j, index);
  }

  /** The low bits of a first byte: what stands below the flag 1 << prefix. */
  lemma LowBelow(prefix: nat, index: nat)
    requires index < Shl(1, prefix)
    ensures Low(Shl(1, prefix) + index, prefix) == index
  {
    ShiftJoin(1, index, prefix);
  }

  lemma Flags()
    ensures Shl(1, 4) == 16 && Shl(1, 6) == 64 && Shl(1, 7) == 128
  {
  }

  lemma LowParts()
    ensures Low(0x40, 6) == 0 && Low(0x04, 4) == 4 && Low(0x10, 4) == 0 && Low(0x82, 7) == 2
  {
    hide Low;
    hide Shl;
    Flags();
    LowBelow(6, 0);
    LowSmall(4, 4);
    LowBelow(4, 0);
    LowBelow(7, 2);
  }

  lemma Masks()
    ensures Mask(6) == 63 && Mask(4) == 15 && Mask(7) == 127
  {
  }

  lemma Heads()
    ensures Represents([0x40], 6, 0) && Represents([0x04], 4, 4) && Represents([0x10], 4, 0) && Represents([0x82], 7, 2)
  {
    hide Low;
    hide Mask;
    LowParts();
    Masks();
  }

  /** One representation at the start of a block. */
  lemma Decoded(c: Config, ts: TableState, bs: seq<byte>, rest: seq<byte>, seen: bool, r: Representation)
    requires ValidConfig(c) && Form(c, ts, bs, r) && !r.Resizes?
    ensures bs != []
    ensures DecodeRepresentation(c, ts, bs + rest, 0, seen) == Ok(Read(r, |bs|))
  {
    hide Form;
    hide ValidConfig;
    hide DecodeRepresentation;
    FormSome(c, ts, bs, r);
    assert (bs + rest)[0..|bs|] == bs;
    DecodeRepresentationExact(c, ts, bs + rest, 0, seen, r, |bs|);
  }

  predicate LongEnough(maxName: nat, maxValue: nat) {
    maxName >= 16 && maxValue >= 16
  }

  /** C.2.1: a literal that joins the table. */
  lemma LiteralWithIndexing(maxName: nat, maxValue: nat, ts: TableState, rest: seq<byte>, seen: bool)
    requires LongEnough(maxName, maxValue)
    ensures ValidConfig(ServerConfig(maxName, maxValue))
    ensures var f := Plain("custom-key", "custom-header");
            var bs := [0x40, 0x0a] + Ascii("custom-key") + [0x0d] + Ascii("custom-header");
            DecodeRepresentation(ServerConfig(maxName, maxValue), ts, bs + rest, 0, seen) ==
            Ok(Read(Carries(f, Added(ts, f)), 26))
  {
    hide ValidCode;
    hide Represents;
    hide LiteralForm;
    hide DecodeRepresentation;
    hide Ascii;
    hide STATIC_TABLE;
    ServerConfigValid(maxName, maxValue);
    Heads();
    var c, f := ServerConfig(maxName, maxValue), Plain("custom-key", "custom-header");
    ShortLiteralForm(c, ts, 0x40, 6, 0, f);
    assert ShortLiteral(0x40, 0, f) == [0x40, 0x0a] + Ascii("custom-key") + [0x0d] + Ascii("custom-header");
    Decoded(c, ts, ShortLiteral(0x40, 0, f), rest, seen, Carries(f, Added(ts, f)));
  }

  /** C.2.2: a literal that does not, with the name of the fourth entry. */
  lemma LiteralWithoutIndexing(maxName: nat, maxValue: nat, ts: TableState, rest: seq<byte>, seen: bool)
    requires LongEnough(maxName, maxValue)
    ensures ValidConfig(ServerConfig(maxName, maxValue))
    ensures var bs := [0x04, 0x0c] + Ascii("/sample/path");
            DecodeRepresentation(ServerConfig(maxName, maxValue), ts, bs + rest, 0, seen) ==
            Ok(Read(Carries(Plain(":path", "/sample/path"), ts), 14))
  {
    hide ValidCode;
    hide Represents;
    hide LiteralForm;
    hide DecodeRepresentation;
    hide Ascii;
    hide STATIC_TABLE;
    ServerConfigValid(maxName, maxValue);
    Heads();
    StaticKnown();
    var c, f := ServerConfig(maxName, maxValue), Plain(":path", "/sample/path");
    ShortLiteralForm(c, ts, 0x04, 4, 4, f);
    assert ShortLiteral(0x04, 4, f) == [0x04, 0x0c] + Ascii("/sample/path");
    Decoded(c, ts, ShortLiteral(0x04, 4, f), rest, seen, Carries(f, ts));
  }

  /** C.2.3: a literal that never joins it. */
  lemma LiteralNeverIndexed(maxName: nat, maxValue: nat, ts: TableState, rest: seq<byte>, seen: bool)
    requires LongEnough(maxName, maxValue)
    ensures ValidConfig(ServerConfig(maxName, maxValue))
    ensures var bs := [0x10, 0x08] + Ascii("password") + [0x06] + Ascii("secret");
            DecodeRepresentation(ServerConfig(maxName, maxValue), ts, bs + rest, 0, seen) ==
            Ok(Read(Carries(Plain("password", "secret"), ts), 17))
  {
    hide ValidCode;
    hide Represents;
    hide LiteralForm;
    hide DecodeRepresentation;
    hide Ascii;
    hide STATIC_TABLE;
    ServerConfigValid(maxName, maxValue);
    Heads();
    var c, f := ServerConfig(maxName, maxValue), Plain("password", "secret");
    ShortLiteralForm(c, ts, 0x10, 4, 0, f);
    assert ShortLiteral(0x10, 0, f) == [0x10, 0x08] + Ascii("password") + [0x06] + Ascii("secret");
    Decoded(c, ts, ShortLiteral(0x10, 0, f), rest, seen, Carries(f, ts));
  }

  /** C.2.4: an entry of the static table. */
  lemma Indexed(maxName: nat, maxValue: nat, ts: TableState, rest: seq<byte>, seen: bool)
    ensures ValidConfig(ServerConfig(maxName, maxValue))
    ensures DecodeRepresentation(ServerConfig(maxName, maxValue), ts, [0x82] + rest, 0, seen) ==
            Ok(Read(Carries(Plain(":method", "GET"), ts), 1))
  {
    hide ValidCode;
    hide Represents;
    hide LiteralForm;
    hide DecodeRepresentation;
    hide Ascii;
    hide STATIC_TABLE;
    ServerConfigValid(maxName, maxValue);
    Heads();
    StaticKnown();
    var c, f := ServerConfig(maxName, maxValue), Plain(":method", "GET");
    assert (c.staticTable + ts.fields)[2 - 1] == f;
    assert IndexedForm(c, ts, [0x82], f);
    Decoded(c, ts, [0x82], rest, seen, Carries(f, ts));
  }
}
