/** Two ends of a connection: what one encodes the other decodes, and their tables stay equal. */
module HpackLockstep {
  import opened Common
  import opened Bits
  import opened HuffmanCode
  import opened HpackInteger
  import opened HpackString
  import opened HpackTable
  import opened Hpack

  /** The literal buffers of the decoder hold the field, and its lengths are representable. */
  predicate FieldFits(c: Config, f: Field) {
    && |f.name| <= c.maxName && |f.value| <= c.maxValue
    && |f.name| <= MAX_INTEGER && |f.value| <= MAX_INTEGER
  }

  lemma IndexesFit(c: Config, ts: TableState, f: Field)
    requires ValidConfig(c) && TableOk(ts)
    ensures NameIndex(Addressed(c, ts), f) <= MAX_INTEGER && FullIndex(Addressed(c, ts), f) <= MAX_INTEGER
  {
    CountBound(ts.fields);
  }

  /** The indexes the encoder writes name what it looked for. */
  lemma IndexesMean(c: Config, ts: TableState, f: Field)
    requires ValidConfig(c)
    ensures FullIndex(Addressed(c, ts), f) != 0 ==>
              FieldAt(Addressed(c, ts), FullIndex(Addressed(c, ts), f)) == Ok(f)
    ensures var name := NameIndex(Addressed(c, ts), f);
            name != 0 ==>
              FieldAt(Addressed(c, ts), name).Ok? && FieldAt(Addressed(c, ts), name).value.name == f.name
  {
  }

  /** The first byte tells the representations apart. */
  lemma FirstByte(n: nat)
    ensures IndexedHead(n) != [] && IndexedHead(n)[0] >= 0x80
    ensures LiteralHead(n, true) != [] && 0x40 <= LiteralHead(n, true)[0] < 0x80
    ensures LiteralHead(n, false) != [] && LiteralHead(n, false)[0] < 0x10
  {
    RepresentationFlags();
  }

  lemma HeadRoundTrip(before: seq<byte>, n: nat, after: seq<byte>)
    requires n <= MAX_INTEGER
    ensures DecodeInteger(before + IndexedHead(n) + after, |before|, 7)
         == Ok(Read(n, |before| + |IndexedHead(n)|))
    ensures DecodeInteger(before + LiteralHead(n, true) + after, |before|, 6)
         == Ok(Read(n, |before| + |LiteralHead(n, true)|))
    ensures DecodeInteger(before + LiteralHead(n, false) + after, |before|, 4)
         == Ok(Read(n, |before| + |LiteralHead(n, false)|))
  {
    hide DecodeInteger;
    hide EncodeInteger;
    hide FlagsFit;
    RepresentationFlags();
    IntegerRoundTrip(before, 7, 0x80, n, after);
    IntegerRoundTrip(before, 6, 0x40, n, after);
    IntegerRoundTrip(before, 4, 0x00, n, after);
  }

  lemma {:induction false} JoinedConcat(a: seq<seq<byte>>, b: seq<seq<byte>>)
    ensures Joined(a + b) == Joined(a) + Joined(b)
  {
    if a == [] {
      assert a + b == b;
    } else {
      assert (a + b)[1..] == a[1..] + b;
      JoinedConcat(a[1..], b);
    }
  }

  lemma JoinedOne(a: seq<byte>)
    ensures Joined([a]) == a
  {
    assert [a][1..] == [];
  }

  lemma JoinedString(c: Config, s: seq<byte>)
    requires ValidConfig(c)
    ensures Joined(StringPieces(c, s)) == EncodeString(c.code, s)
  {
    hide StringHeader;
    hide Payload;
    hide ValidCode;
    var header, payload := StringHeader(c.code, s), Payload(c.code, s);
    assert [header, payload] == [header] + [payload];
    JoinedConcat([header], [payload]);
    JoinedOne(header);
    JoinedOne(payload);
  }

  /** The bytes of a field, case by case. */
  lemma FieldBytes(c: Config, ts: TableState, f: Field, indexing: bool)
    requires ValidConfig(c)
    ensures var full, name := FullIndex(Addressed(c, ts), f), NameIndex(Addressed(c, ts), f);
            EncodeField(c, ts, f, indexing) ==
            if full != 0 then IndexedHead(full)
            else LiteralHead(name, indexing)
                 + (if name == 0 then EncodeString(c.code, f.name) else [])
                 + EncodeString(c.code, f.value)
  {
    hide IndexedHead;
    hide LiteralHead;
    hide EncodeString;
    hide StringPieces;
    hide FullIndex;
    hide NameIndex;
    hide ValidCode;
    hide Joined;
    var full, name := FullIndex(Addressed(c, ts), f), NameIndex(Addressed(c, ts), f);
    if full != 0 {
      JoinedOne(IndexedHead(full));
    } else {
      var head := LiteralHead(name, indexing);
      JoinedOne(head);
      JoinedString(c, f.value);
      if name == 0 {
        JoinedString(c, f.name);
        JoinedConcat([head], StringPieces(c, f.name));
        JoinedConcat([head] + StringPieces(c, f.name), StringPieces(c, f.value));
      } else {
        assert [head] + [] == [head];
        JoinedConcat([head], StringPieces(c, f.value));
      }
    }
  }

  // ---- One field ------------------------------------------------------------------------------

  /** The name comes back: as a literal when it was in no table, through its index otherwise. */
  lemma NameRoundTrip(c: Config, ts: TableState, before: seq<byte>, f: Field, after: seq<byte>)
    requires ValidConfig(c) && FieldFits(c, f)
    ensures var name := NameIndex(Addressed(c, ts), f);
            var bytes := if name == 0 then EncodeString(c.code, f.name) else [];
            DecodeName(c, ts, before + bytes + after, name, |before|) == Ok(Read(f.name, |before| + |bytes|))
  {
    hide EncodeString;
    hide DecodeString;
    hide NameIndex;
    IndexesMean(c, ts, f);
    StringRoundTrip(c.code, before, f.name, after, c.maxName);
  }

  lemma LiteralRoundTrip(c: Config, ts: TableState, before: seq<byte>, f: Field, indexing: bool, after: seq<byte>)
    requires ValidConfig(c) && TableOk(ts) && FieldFits(c, f)
    ensures var name := NameIndex(Addressed(c, ts), f);
            var bytes := LiteralHead(name, indexing)
                         + (if name == 0 then EncodeString(c.code, f.name) else [])
                         + EncodeString(c.code, f.value);
            && bytes != []
            && DecodeLiteral(c, ts, before + bytes + after, |before|, indexing)
               == Ok(Read(Carries(f, if indexing then Added(ts, f) else ts), |before| + |bytes|))
  {
    hide *;
    FitsValue(c, f);
    var name := NameIndex(Addressed(c, ts), f);
    var head := LiteralHead(name, indexing);
    var nameBytes := if name == 0 then EncodeString(c.code, f.name) else [];
    var valueBytes := EncodeString(c.code, f.value);
    var data := before + (head + nameBytes + valueBytes) + after;
    FirstByte(name);
    IndexesFit(c, ts, f);
    assert data == before + head + (nameBytes + valueBytes + after);
    HeadRoundTrip(before, name, nameBytes + valueBytes + after);
    assert data == (before + head) + nameBytes + (valueBytes + after);
    NameRoundTrip(c, ts, before + head, f, valueBytes + after);
    assert data == (before + head + nameBytes) + valueBytes + after;
    StringRoundTrip(c.code, before + head + nameBytes, f.value, after, c.maxValue);
    LiteralFrom(c, ts, data, |before|, indexing, name, |before + head|, f, |before + head + nameBytes|,
                |before + head + nameBytes + valueBytes|);
  }

  lemma FitsValue(c: Config, f: Field)
    requires ValidConfig(c) && FieldFits(c, f)
    ensures |f.value| <= c.maxValue && |f.value| <= MAX_INTEGER && ValidCode(c.code)
  {
  }

  /** A literal representation is its three parts read one behind the other. */
  lemma LiteralFrom(c: Config, ts: TableState, data: seq<byte>, offset: nat, indexing: bool, index: nat, p: nat,
                    f: Field, q: nat, next: nat)
    requires ValidConfig(c) && offset < |data| && p <= |data|
    requires DecodeInteger(data, offset, if indexing then 6 else 4) == Ok(Read(index, p))
    requires DecodeName(c, ts, data, index, p) == Ok(Read(f.name, q))
    requires DecodeString(c.code, data, q, c.maxValue) == Ok(Read(f.value, next))
    ensures DecodeLiteral(c, ts, data, offset, indexing)
         == Ok(Read(Carries(f, if indexing then Added(ts, f) else ts), next))
  {
    hide DecodeInteger;
    hide DecodeName;
    hide DecodeString;
  }

  /**
   * What is written for a field decodes to that field, ends where the field ends, and changes the
   * table of the decoder as it changed the one of the encoder, wherever it stands in a block.
   */
  lemma FieldRoundTrip(c: Config, ts: TableState, before: seq<byte>, f: Field, indexing: bool, after: seq<byte>,
                       seen: bool)
    requires ValidConfig(c) && TableOk(ts) && FieldFits(c, f)
    ensures var bytes := EncodeField(c, ts, f, indexing);
            && bytes != []
            && DecodeRepresentation(c, ts, before + bytes + after, |before|, seen)
               == Ok(Read(Carries(f, AfterField(c, ts, f, indexing)), |before| + |bytes|))
  {
    hide DecodeInteger;
    hide DecodeLiteral;
    hide IndexedHead;
    hide LiteralHead;
    hide EncodeString;
    hide EncodeField;
    hide FullIndex;
    hide NameIndex;
    hide Inserted;
    hide ValidCode;
    var full, name := FullIndex(Addressed(c, ts), f), NameIndex(Addressed(c, ts), f);
    FieldBytes(c, ts, f, indexing);
    IndexesFit(c, ts, f);
    FirstByte(full);
    FirstByte(name);
    if full != 0 {
      IndexesMean(c, ts, f);
      HeadRoundTrip(before, full, after);
    } else {
      LiteralRoundTrip(c, ts, before, f, indexing, after);
    }
  }

  // ---- One block ------------------------------------------------------------------------------

  /** A field to be sent, and whether it may join the table. */
  datatype Item = Item(field: Field, indexing: bool)

  ghost function FieldsOf(items: seq<Item>): (r: seq<Field>)
    ensures |r| == |items|
  {
    seq(|items|, i requires 0 <= i < |items| => items[i].field)
  }

  ghost function EncodeItems(c: Config, ts: TableState, items: seq<Item>): seq<byte>
    requires ValidConfig(c)
    decreases |items|
  {
    if items == [] then []
    else EncodeField(c, ts, items[0].field, items[0].indexing)
         + EncodeItems(c, AfterField(c, ts, items[0].field, items[0].indexing), items[1..])
  }

  ghost function AfterItems(c: Config, ts: TableState, items: seq<Item>): TableState
    requires ValidConfig(c)
    decreases |items|
  {
    if items == [] then ts
    else AfterItems(c, AfterField(c, ts, items[0].field, items[0].indexing), items[1..])
  }

  /** The limits of the decoder on a block: each field, the whole list, and the callback. */
  ghost predicate BlockFits(c: Config, accept: (seq<Field>, Field) -> bool, fields: seq<Field>, items: seq<Item>) {
    && (forall i :: 0 <= i < |items| ==> FieldFits(c, items[i].field))
    && SizeOf(fields + FieldsOf(items)) <= MAX_HEADER_LIST_SIZE
    && (forall i :: 0 <= i < |items| ==> accept(fields + FieldsOf(items[..i]), items[i].field))
  }

  lemma AfterFieldOk(c: Config, ts: TableState, f: Field, indexing: bool)
    requires TableOk(ts)
    ensures TableOk(AfterField(c, ts, f, indexing))
  {
    AddedOk(ts, f);
  }

  lemma FieldsNext(fields: seq<Field>, items: seq<Item>)
    requires items != []
    ensures fields + FieldsOf(items) == fields + [items[0].field] + FieldsOf(items[1..])
    ensures fields + FieldsOf(items[..0]) == fields
    ensures forall i :: 0 <= i < |items| - 1 ==>
              fields + FieldsOf(items[..i + 1]) == fields + [items[0].field] + FieldsOf(items[1..][..i])
  {
    assert FieldsOf(items) == [items[0].field] + FieldsOf(items[1..]);
    forall i | 0 <= i < |items| - 1
      ensures fields + FieldsOf(items[..i + 1]) == fields + [items[0].field] + FieldsOf(items[1..][..i])
    {
      assert FieldsOf(items[..i + 1]) == [items[0].field] + FieldsOf(items[1..][..i]);
    }
  }

  lemma BlockFitsNext(c: Config, accept: (seq<Field>, Field) -> bool, fields: seq<Field>, items: seq<Item>)
    requires items != [] && BlockFits(c, accept, fields, items)
    ensures FieldFits(c, items[0].field) && accept(fields, items[0].field)
    ensures SizeOf(fields) + FieldSize(items[0].field) == SizeOf(fields + [items[0].field]) <= MAX_HEADER_LIST_SIZE
    ensures BlockFits(c, accept, fields + [items[0].field], items[1..])
    ensures fields + FieldsOf(items) == fields + [items[0].field] + FieldsOf(items[1..])
  {
    hide FieldsOf;
    hide SizeOf;
    hide FieldSize;
    hide FieldFits;
    var f, rest := items[0].field, items[1..];
    FieldsNext(fields, items);
    assert (fields + [f] + FieldsOf(rest))[..|fields| + 1] == fields + [f];
    SizeOfPrefix(fields + FieldsOf(items), |fields| + 1);
    SizeOfSnoc(fields, f);
    forall i | 0 <= i < |rest| ensures accept(fields + [f] + FieldsOf(rest[..i]), rest[i].field) {
      assert rest[i] == items[i + 1] && accept(fields + FieldsOf(items[..i + 1]), items[i + 1].field);
    }
  }

  /** A whole block, decoded from any point of it on. */
  lemma {:induction false} BlockLockstep(c: Config, accept: (seq<Field>, Field) -> bool, ts: TableState,
                                         before: seq<byte>, fields: seq<Field>, items: seq<Item>)
    requires ValidConfig(c) && TableOk(ts) && BlockFits(c, accept, fields, items)
    ensures DecodeFrom(c, accept, ts, before + EncodeItems(c, ts, items), |before|, SizeOf(fields), fields)
         == Block(AfterItems(c, ts, items), fields + FieldsOf(items), None)
    decreases |items|
  {
    hide BlockFits;
    hide SizeOf;
    hide EncodeField;
    hide AfterField;
    hide DecodeRepresentation;
    hide TableOk;
    hide ValidConfig;
    if items == [] {
      assert fields + FieldsOf(items) == fields;
      assert before + [] == before;
    } else {
      var f, indexing := items[0].field, items[0].indexing;
      var bytes, next := EncodeField(c, ts, f, indexing), AfterField(c, ts, f, indexing);
      var rest := EncodeItems(c, next, items[1..]);
      BlockFitsNext(c, accept, fields, items);
      FieldRoundTrip(c, ts, before, f, indexing, rest, fields != []);
      AfterFieldOk(c, ts, f, indexing);
      assert before + EncodeItems(c, ts, items) == before + bytes + rest;
      BlockLockstep(c, accept, next, before + bytes, fields + [f], items[1..]);
    }
  }

  // ---- A whole connection ---------------------------------------------------------------------

  /** What the encoder sends for a list of header lists, and the table it ends with. */
  ghost function Sent(c: Config, ts: TableState, lists: seq<seq<Item>>): (r: seq<seq<byte>>)
    requires ValidConfig(c)
    ensures |r| == |lists|
    decreases |lists|
  {
    if lists == [] then []
    else [EncodeItems(c, ts, lists[0])] + Sent(c, AfterItems(c, ts, lists[0]), lists[1..])
  }

  ghost function TableAfter(c: Config, ts: TableState, lists: seq<seq<Item>>): TableState
    requires ValidConfig(c)
    decreases |lists|
  {
    if lists == [] then ts else TableAfter(c, AfterItems(c, ts, lists[0]), lists[1..])
  }

  /** What the decoder makes of a list of blocks, one result a block. */
  ghost function Received(c: Config, accept: (seq<Field>, Field) -> bool, ts: TableState, blocks: seq<seq<byte>>)
    : (r: seq<Block>)
    requires ValidConfig(c)
    ensures |r| == |blocks|
    decreases |blocks|
  {
    if blocks == [] then []
    else
      var b := DecodeBlock(c, accept, ts, blocks[0]);
      [b] + Received(c, accept, b.table, blocks[1..])
  }

  lemma {:induction false} AfterItemsOk(c: Config, ts: TableState, items: seq<Item>)
    requires ValidConfig(c) && TableOk(ts)
    ensures TableOk(AfterItems(c, ts, items))
    decreases |items|
  {
    if items != [] {
      AfterFieldOk(c, ts, items[0].field, items[0].indexing);
      AfterItemsOk(c, AfterField(c, ts, items[0].field, items[0].indexing), items[1..]);
    }
  }

  /**
   * Two ends that start from equal tables never diverge: for every sequence of header lists within
   * the limits of the decoder, each block decodes without error to the fields that were sent, in
   * order, and after each block the table of the decoder is the table of the encoder.
   */
  lemma {:induction false} Lockstep(c: Config, accept: (seq<Field>, Field) -> bool, ts: TableState,
                                    lists: seq<seq<Item>>, i: nat)
    requires ValidConfig(c) && TableOk(ts) && i < |lists|
    requires forall j :: 0 <= j < |lists| ==> BlockFits(c, accept, [], lists[j])
    ensures Received(c, accept, ts, Sent(c, ts, lists))[i]
         == Block(TableAfter(c, ts, lists[..i + 1]), FieldsOf(lists[i]), None)
    decreases |lists|
  {
    hide BlockFits;
    hide EncodeItems;
    hide AfterItems;
    hide DecodeBlock;
    hide TableOk;
    hide ValidConfig;
    var first, next := lists[0], AfterItems(c, ts, lists[0]);
    WholeBlock(c, accept, ts, first);
    AfterItemsOk(c, ts, first);
    var sent := Sent(c, ts, lists);
    assert sent[1..] == Sent(c, next, lists[1..]);
    assert lists[..i + 1][1..] == lists[1..][..i];
    if i == 0 {
      assert TableAfter(c, next, lists[1..][..0]) == next;
    } else {
      Lockstep(c, accept, next, lists[1..], i - 1);
    }
  }

  lemma WholeBlock(c: Config, accept: (seq<Field>, Field) -> bool, ts: TableState, items: seq<Item>)
    requires ValidConfig(c) && TableOk(ts) && BlockFits(c, accept, [], items)
    ensures DecodeBlock(c, accept, ts, EncodeItems(c, ts, items))
         == Block(AfterItems(c, ts, items), FieldsOf(items), None)
  {
    BlockLockstep(c, accept, ts, [], [], items);
    assert [] + EncodeItems(c, ts, items) == EncodeItems(c, ts, items);
    assert [] + FieldsOf(items) == FieldsOf(items);
  }
}
