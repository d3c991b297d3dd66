/** The two entry points of the source: a loop over the representations of a block, and the encoder. */
module HpackCodec {
  import opened Common
  import opened HuffmanCode
  import opened HpackInteger
  import opened HpackString
  import opened HpackTable
  import opened Hpack
  import opened HpackLockstep

  ghost function StateOf(table: DynamicTable): TableState
    requires table.Valid()
    reads table, table.entries
  {
    TableState(table.Contents(), table.maxSize)
  }

  /** Reads the name of a literal representation into the buffer: as a literal, or out of a table. */
  method DecodeNameAt(c: Config, table: DynamicTable, data: seq<byte>, index: nat, position: nat, buffer: array<byte>)
    returns (next: nat, r: Result<nat, HpackError>)
    requires ValidConfig(c) && table.Valid() && position <= |data| && buffer.Length == c.maxName
    modifies buffer
    ensures table.Valid() && StateOf(table) == old(StateOf(table))
    ensures r.Ok? ==> r.value <= buffer.Length
    ensures r.Ok? ==> DecodeName(c, StateOf(table), data, index, position) == Ok(Read(buffer[..r.value], next))
    ensures r.Err? ==> DecodeName(c, StateOf(table), data, index, position) == Err(r.error)
  {
    hide ValidCode;
    hide DecodeString;
    if index == 0 {
      next, r := DecodeStringAt(c.code, data, position, buffer);
      return;
    }
    var indexed := table.Get(c.staticTable, index);
    if indexed.Err? {
      return position, Err(indexed.error);
    }
    var name := indexed.value.name;
    if |name| > buffer.Length {
      return position, Err(NameTooLong);
    }
    forall i | 0 <= i < |name| {
      buffer[i] := name[i];
    }
    assert buffer[..|name|] == name;
    return position, Ok(|name|);
  }

  /** What one step does to the table and returns, in terms of the specification. */
  ghost predicate StepMeets(spec: Outcome<Representation>, was: TableState, now: TableState, next: nat,
                            r: Result<Option<Field>, HpackError>)
  {
    match spec
    case Err(e) => r == Err(e) && now == was
    case Ok(Read(Resizes(max), n)) => r == Ok(None) && next == n && now == ResizedTo(was, max)
    case Ok(Read(Carries(f, after), n)) => r == Ok(Some(f)) && next == n && now == after
  }

  /** A literal representation: the name, the value, and the table when the field joins it. */
  method DecodeLiteralAt(c: Config, table: DynamicTable, data: seq<byte>, offset: nat, indexing: bool,
                         name: array<byte>, value: array<byte>)
    returns (next: nat, r: Result<Option<Field>, HpackError>)
    requires ValidConfig(c) && table.Valid() && offset < |data|
    requires name.Length == c.maxName && value.Length == c.maxValue
    modifies table, table.entries, name, value
    ensures table.Valid()
    ensures StepMeets(DecodeLiteral(c, old(StateOf(table)), data, offset, indexing), old(StateOf(table)),
                      StateOf(table), next, r)
  {
    hide ValidCode;
    hide DecodeInteger;
    hide DecodeName;
    hide DecodeString;
    hide Inserted;
    var position, index := DecodeIntegerAt(data, offset, if indexing then 6 else 4);
    if index.Err? {
      return offset, Err(index.error);
    }
    var afterName, nameSize := DecodeNameAt(c, table, data, index.value, position, name);
    if nameSize.Err? {
      return offset, Err(nameSize.error);
    }
    var copied := name[..nameSize.value];
    var afterValue, valueSize := DecodeStringAt(c.code, data, afterName, value);
    if valueSize.Err? {
      return offset, Err(valueSize.error);
    }
    var f := Field(copied, value[..valueSize.value]);
    if indexing {
      table.Insert(f);
    }
    return afterValue, Ok(Some(f));
  }

  /** One representation of a block, told apart by its leading bits. */
  method DecodeRepresentationAt(c: Config, table: DynamicTable, data: seq<byte>, offset: nat, seen: bool,
                                name: array<byte>, value: array<byte>)
    returns (next: nat, r: Result<Option<Field>, HpackError>)
    requires ValidConfig(c) && table.Valid() && offset < |data|
    requires name.Length == c.maxName && value.Length == c.maxValue
    modifies table, table.entries, name, value
    ensures table.Valid()
    ensures StepMeets(DecodeRepresentation(c, old(StateOf(table)), data, offset, seen), old(StateOf(table)),
                      StateOf(table), next, r)
  {
    hide ValidCode;
    hide DecodeInteger;
    hide DecodeLiteral;
    var octet := data[offset];
    if octet >= 0x80 {
      var position, index := DecodeIntegerAt(data, offset, 7);
      if index.Err? {
        return offset, Err(index.error);
      }
      var found := table.Get(c.staticTable, index.value);
      if found.Err? {
        return offset, Err(found.error);
      }
      return position, Ok(Some(found.value));
    } else if 0x20 <= octet < 0x40 {
      if seen {
        return offset, Err(LateSizeUpdate);
      }
      var position, max := DecodeIntegerAt(data, offset, 5);
      if max.Err? {
        return offset, Err(max.error);
      }
      var ok := table.Resize(max.value);
      if !ok {
        return offset, Err(TableTooLarge);
      }
      return position, Ok(None);
    } else {
      next, r := DecodeLiteralAt(c, table, data, offset, octet >= 0x40, name, value);
    }
  }

  lemma FromStep(c: Config, accept: (seq<Field>, Field) -> bool, ts: TableState, data: seq<byte>, offset: nat,
                 listSize: nat, fields: seq<Field>, now: TableState, next: nat, r: Result<Option<Field>, HpackError>)
    requires ValidConfig(c) && offset < |data|
    requires StepMeets(DecodeRepresentation(c, ts, data, offset, fields != []), ts, now, next, r)
    ensures var goal := DecodeFrom(c, accept, ts, data, offset, listSize, fields);
            match r
            case Err(e) => goal == Block(now, fields, Some(e))
            case Ok(None) => offset < next <= |data| && goal == DecodeFrom(c, accept, now, data, next, listSize, fields)
            case Ok(Some(f)) =>
              && offset < next <= |data|
              && goal == if listSize + FieldSize(f) > MAX_HEADER_LIST_SIZE then Block(now, fields, Some(ListTooLong))
                         else if !accept(fields, f) then Block(now, fields + [f], Some(Refused))
                         else DecodeFrom(c, accept, now, data, next, listSize + FieldSize(f), fields + [f])
  {
    hide ValidConfig;
    hide DecodeRepresentation;
  }

  lemma FromBounds(c: Config, accept: (seq<Field>, Field) -> bool, ts: TableState, data: seq<byte>, offset: nat,
                   listSize: nat, fields: seq<Field>)
    requires ValidConfig(c)
    ensures DecodeBlock(c, accept, ts, data) == DecodeFrom(c, accept, ts, data, 0, 0, [])
    ensures offset >= |data| ==> DecodeFrom(c, accept, ts, data, offset, listSize, fields) == Block(ts, fields, None)
  {
  }

  /**
   * Decodes a block against the table. The fields handed to the callback, the table and the error
   * are those of the specification, on every input.
   */
  method DecodeHpack(c: Config, table: DynamicTable, data: seq<byte>, accept: (seq<Field>, Field) -> bool)
    returns (fields: seq<Field>, error: Option<HpackError>)
    requires ValidConfig(c) && table.Valid()
    modifies table, table.entries
    ensures table.Valid()
    ensures Block(StateOf(table), fields, error) == DecodeBlock(c, accept, old(StateOf(table)), data)
  {
    hide *;
    var offset: nat, listSize: nat := 0, 0;
    var field := false;
    var name := new byte[c.maxName];
    var value := new byte[c.maxValue];
    fields := [];
    ghost var goal := DecodeBlock(c, accept, StateOf(table), data);
    FromBounds(c, accept, StateOf(table), data, offset, listSize, fields);
    while offset < |data|
      invariant table.Valid() && offset <= |data| && (field <==> fields != [])
      invariant DecodeFrom(c, accept, StateOf(table), data, offset, listSize, fields) == goal
      decreases |data| - offset
    {
      ghost var ts := StateOf(table);
      var next, header := DecodeRepresentationAt(c, table, data, offset, field, name, value);
      FromStep(c, accept, ts, data, offset, listSize, fields, StateOf(table), next, header);
      if header.Err? {
        return fields, Some(header.error);
      }
      offset := next;
      if header.value == None { continue; }
      var f := header.value.value;
      field := true;
      listSize := listSize + FieldSize(f);
      if listSize > MAX_HEADER_LIST_SIZE {
        return fields, Some(ListTooLong);
      }
      var accepted := accept(fields, f);
      fields := fields + [f];
      if !accepted {
        return fields, Some(Refused);
      }
    }
    FromBounds(c, accept, StateOf(table), data, offset, listSize, fields);
    return fields, None;
  }

  // ---- The encoder ----------------------------------------------------------------------------

  /** Pieces that fit are all written; a piece that does not fit stops whatever comes behind it. */
  lemma {:induction false} StopAtConcat(offset: nat, limit: nat, a: seq<seq<byte>>, b: seq<seq<byte>>)
    ensures offset + |Joined(a)| <= limit ==> StopAt(offset, limit, a) == offset + |Joined(a)|
    ensures offset + |Joined(a)| <= limit ==> StopAt(offset, limit, a + b) == StopAt(offset + |Joined(a)|, limit, b)
    ensures offset + |Joined(a)| > limit ==> StopAt(offset, limit, a + b) == StopAt(offset, limit, a)
    decreases |a|
  {
    if a == [] {
      assert a + b == b;
    } else {
      assert (a + b)[0] == a[0] && (a + b)[1..] == a[1..] + b;
      assert Joined(a) == a[0] + Joined(a[1..]);
      hide Joined;
      if offset + |a[0]| <= limit { StopAtConcat(offset + |a[0]|, limit, a[1..], b); }
    }
  }

  /** Writes one string behind pieces already written. */
  method AppendString(c: Config, buffer: array<byte>, start: nat, offset: nat, value: seq<byte>,
                      ghost pieces: seq<seq<byte>>, ghost was: seq<byte>)
    returns (next: nat, ok: bool)
    requires ValidConfig(c) && offset <= buffer.Length && offset == start + |Joined(pieces)|
    requires Written(buffer[..], was, start, Joined(pieces))
    modifies buffer
    ensures var all := pieces + StringPieces(c, value);
            && (ok <==> start + |Joined(all)| <= buffer.Length)
            && (ok ==> next == start + |Joined(all)| && Written(buffer[..], was, start, Joined(all)))
            && next == StopAt(start, buffer.Length, all)
    ensures buffer[..start] == was[..start]
  {
    hide *;
    CodeOf(c);
    ghost var middle := buffer[..];
    next, ok := EncodeStringAt(c.code, buffer, offset, value);
    JoinedString(c, value);
    JoinedConcat(pieces, StringPieces(c, value));
    StopAtConcat(start, buffer.Length, pieces, StringPieces(c, value));
    if ok {
      WrittenTwice(buffer[..], middle, was, start, Joined(pieces), EncodeString(c.code, value));
    } else {
      WrittenPrefix(middle, was, start, Joined(pieces));
      PrefixThrough(buffer[..], middle, was, start, offset);
    }
  }

  lemma CodeOf(c: Config)
    requires ValidConfig(c)
    ensures ValidCode(c.code) && |c.staticTable| == STATIC_SIZE
    ensures forall s: seq<byte> {:trigger StringPieces(c, s)} ::
              StringPieces(c, s) == [StringHeader(c.code, s), Payload(c.code, s)]
  {
  }

  /**
   * Encodes a field at buffer[offset..]. It succeeds exactly when the field fits; then the table is
   * the one the decoder will have. When it fails the table is untouched and the position is behind
   * the last piece that was written whole.
   */
  method EncodeHpack(c: Config, table: DynamicTable, buffer: array<byte>, offset: nat, f: Field, indexing: bool)
    returns (next: nat, ok: bool)
    requires ValidConfig(c) && table.Valid() && offset <= buffer.Length
    modifies buffer, table, table.entries
    ensures table.Valid()
    ensures ok <==> offset + |EncodeField(c, old(StateOf(table)), f, indexing)| <= buffer.Length
    ensures ok ==> next == offset + |EncodeField(c, old(StateOf(table)), f, indexing)|
    ensures ok ==> Written(buffer[..], old(buffer[..]), offset, EncodeField(c, old(StateOf(table)), f, indexing))
    ensures ok ==> StateOf(table) == AfterField(c, old(StateOf(table)), f, indexing)
    ensures !ok ==> StateOf(table) == old(StateOf(table))
    ensures next == StopAt(offset, buffer.Length, FieldPieces(c, old(StateOf(table)), f, indexing))
    ensures buffer[..offset] == old(buffer[..offset])
  {
    hide *;
    CodeOf(c);
    RepresentationFlags();
    ghost var ts, was := StateOf(table), buffer[..];
    StateParts(c, table);
    var complete, index := table.Find(c.staticTable, f);
    PiecesOf(c, ts, f, indexing);
    if complete {
      next, ok := EncodeIntegerAt(buffer, offset, 7, 0x80, index);
      HeadOnly(offset, buffer.Length, IndexedHead(index));
      return;
    }
    ghost var pieces: seq<seq<byte>> := [LiteralHead(index, indexing)];
    if indexing {
      next, ok := EncodeIntegerAt(buffer, offset, 6, 0x40, index);
    } else {
      next, ok := EncodeIntegerAt(buffer, offset, 4, 0x00, index);
    }
    HeadOnly(offset, buffer.Length, pieces[0]);
    ghost var rest := FieldPieces(c, ts, f, indexing)[1..];
    assert FieldPieces(c, ts, f, indexing) == pieces + rest;
    StopAtConcat(offset, buffer.Length, pieces, rest);
    JoinedConcat(pieces, rest);
    if !ok { return; }
    if index == 0 {
      next, ok := AppendString(c, buffer, offset, next, f.name, pieces, was);
      pieces := pieces + StringPieces(c, f.name);
      assert FieldPieces(c, ts, f, indexing) == pieces + StringPieces(c, f.value);
      StopAtConcat(offset, buffer.Length, pieces, StringPieces(c, f.value));
      JoinedConcat(pieces, StringPieces(c, f.value));
      if !ok { return; }
    }
    next, ok := AppendString(c, buffer, offset, next, f.value, pieces, was);
    if !ok { return; }
    if indexing {
      table.Insert(f);
    }
    StateParts(c, table);
  }

  lemma StateParts(c: Config, table: DynamicTable)
    requires table.Valid()
    ensures StateOf(table) == TableState(table.Contents(), table.maxSize)
    ensures Addressed(c, StateOf(table)) == c.staticTable + table.Contents()
  {
  }

  lemma HeadOnly(offset: nat, limit: nat, head: seq<byte>)
    ensures Joined([head]) == head
    ensures StopAt(offset, limit, [head]) == if offset + |head| > limit then offset else offset + |head|
  {
    JoinedOne(head);
    assert [head][1..] == [];
    assert StopAt(offset + |head|, limit, []) == offset + |head|;
  }

  lemma PiecesOf(c: Config, ts: TableState, f: Field, indexing: bool)
    requires ValidConfig(c)
    ensures EncodeField(c, ts, f, indexing) == Joined(FieldPieces(c, ts, f, indexing))
    ensures FlagsFit(7, 0x80) && FlagsFit(6, 0x40) && FlagsFit(4, 0x00)
    ensures var full, name := FullIndex(Addressed(c, ts), f), NameIndex(Addressed(c, ts), f);
            && IndexedHead(full) == EncodeInteger(7, 0x80, full)
            && LiteralHead(name, true) == EncodeInteger(6, 0x40, name)
            && LiteralHead(name, false) == EncodeInteger(4, 0x00, name)
            && AfterField(c, ts, f, indexing) == (if full == 0 && indexing
                                                  then TableState(Inserted(ts.fields, ts.maxSize, f), ts.maxSize)
                                                  else ts)
            && FieldPieces(c, ts, f, indexing) ==
               if full != 0 then [IndexedHead(full)]
               else if name == 0
               then [LiteralHead(name, indexing)] + StringPieces(c, f.name) + StringPieces(c, f.value)
               else [LiteralHead(name, indexing)] + StringPieces(c, f.value)
  {
    hide EncodeInteger;
    hide StringPieces;
    hide Inserted;
    hide ValidConfig;
    RepresentationFlags();
  }
}
