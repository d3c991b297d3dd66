/**
 * Header blocks (sections 3 and 6 of RFC 7541): the encoder of fields, the decoder of blocks, and
 * the proof that their tables stay in step over a whole connection.
 */
module Hpack {
  import opened Common
  import opened Bits
  import opened HuffmanCode
  import opened HpackInteger
  import opened HpackString
  import opened HpackTable

  const MAX_HEADER_LIST_SIZE: nat := 32768

  /** What a build fixes: the Huffman code, the static table, and the sizes of the literal buffers. */
  datatype Config = Config(code: Tables, staticTable: seq<Field>, maxName: nat, maxValue: nat)

  ghost predicate ValidConfig(c: Config) {
    ValidCode(c.code) && |c.staticTable| == STATIC_SIZE
  }

  /** What one end of a connection knows of a dynamic table. */
  datatype TableState = TableState(fields: seq<Field>, maxSize: nat)

  predicate TableOk(ts: TableState) {
    SizeOf(ts.fields) <= ts.maxSize <= TABLE_SIZE
  }

  function Addressed(c: Config, ts: TableState): seq<Field> {
    c.staticTable + ts.fields
  }

  function Added(ts: TableState, f: Field): TableState {
    ts.(fields := Inserted(ts.fields, ts.maxSize, f))
  }

  function ResizedTo(ts: TableState, max: nat): TableState {
    TableState(Evicted(ts.fields, max), max)
  }

  // ---- Encoding -------------------------------------------------------------------------------

  lemma RepresentationFlags()
    ensures FlagsFit(7, 0x80) && FlagsFit(6, 0x40) && FlagsFit(4, 0x00)
    ensures Mask(7) == 127 && Mask(6) == 63 && Mask(4) == 15
  {
    assert Low(0x80, 7) == 0 && Low(0x40, 6) == 0 && Low(0, 4) == 0;
  }

  /** The representation of a field that is in no table in full: its kind and the index of its name. */
  ghost function LiteralHead(name: nat, indexing: bool): seq<byte> {
    RepresentationFlags();
    if indexing then EncodeInteger(6, 0x40, name) else EncodeInteger(4, 0x00, name)
  }

  ghost function IndexedHead(full: nat): seq<byte> {
    RepresentationFlags();
    EncodeInteger(7, 0x80, full)
  }

  ghost function StringPieces(c: Config, s: seq<byte>): seq<seq<byte>>
    requires ValidConfig(c)
  {
    [StringHeader(c.code, s), Payload(c.code, s)]
  }

  /** The pieces a field is written in. */
  ghost function FieldPieces(c: Config, ts: TableState, f: Field, indexing: bool): seq<seq<byte>>
    requires ValidConfig(c)
  {
    var full, name := FullIndex(Addressed(c, ts), f), NameIndex(Addressed(c, ts), f);
    if full != 0 then [IndexedHead(full)]
    else
      [LiteralHead(name, indexing)]
      + (if name == 0 then StringPieces(c, f.name) else [])
      + StringPieces(c, f.value)
  }

  ghost function Joined(pieces: seq<seq<byte>>): seq<byte> {
    if pieces == [] then [] else pieces[0] + Joined(pieces[1..])
  }

  ghost function EncodeField(c: Config, ts: TableState, f: Field, indexing: bool): seq<byte>
    requires ValidConfig(c)
  {
    Joined(FieldPieces(c, ts, f, indexing))
  }

  /** The table after a field has been encoded. */
  ghost function AfterField(c: Config, ts: TableState, f: Field, indexing: bool): TableState {
    if FullIndex(Addressed(c, ts), f) == 0 && indexing then Added(ts, f) else ts
  }

  // ---- Decoding -------------------------------------------------------------------------------

  /** One representation: a field with the table it leaves, or a new size of the table. */
  datatype Representation = Carries(field: Field, after: TableState) | Resizes(max: nat)

  function DecodeName(c: Config, ts: TableState, data: seq<byte>, index: nat, position: nat): (r: Outcome<seq<byte>>)
    requires ValidConfig(c) && position <= |data|
    ensures r.Ok? ==> position <= r.value.next <= |data| && |r.value.value| <= c.maxName
  {
    if index == 0 then DecodeString(c.code, data, position, c.maxName)
    else
      match FieldAt(Addressed(c, ts), index)
      case Err(e) => Err(e)
      case Ok(f) => if |f.name| > c.maxName then Err(NameTooLong) else Ok(Read(f.name, position))
  }

  function DecodeLiteral(c: Config, ts: TableState, data: seq<byte>, offset: nat, indexing: bool)
    : (r: Outcome<Representation>)
    requires ValidConfig(c) && offset < |data|
    ensures r.Ok? ==> offset < r.value.next <= |data| && r.value.value.Carries?
    ensures r.Ok? ==> r.value.value.after == if indexing then Added(ts, r.value.value.field) else ts
  {
    match DecodeInteger(data, offset, if indexing then 6 else 4)
    case Err(e) => Err(e)
    case Ok(Read(index, position)) =>
      match DecodeName(c, ts, data, index, position)
      case Err(e) => Err(e)
      case Ok(Read(name, position)) =>
        match DecodeString(c.code, data, position, c.maxValue)
        case Err(e) => Err(e)
        case Ok(Read(value, position)) =>
          var f := Field(name, value);
          Ok(Read(Carries(f, if indexing then Added(ts, f) else ts), position))
  }

  function DecodeRepresentation(c: Config, ts: TableState, data: seq<byte>, offset: nat, seen: bool)
    : (r: Outcome<Representation>)
    requires ValidConfig(c) && offset < |data|
    ensures r.Ok? ==> offset < r.value.next <= |data|
    ensures r.Ok? && r.value.value.Resizes? ==> !seen && r.value.value.max <= TABLE_SIZE
    ensures r.Ok? && r.value.value.Carries? ==>
              r.value.value.after == ts || r.value.value.after == Added(ts, r.value.value.field)
  {
    var octet := data[offset];
    if octet >= 0x80 then
      match DecodeInteger(data, offset, 7)
      case Err(e) => Err(e)
      case Ok(Read(index, next)) =>
        match FieldAt(Addressed(c, ts), index)
        case Err(e) => Err(e)
        case Ok(f) => Ok(Read(Carries(f, ts), next))
    else if 0x20 <= octet < 0x40 then
      if seen then Err(LateSizeUpdate) else
      match DecodeInteger(data, offset, 5)
      case Err(e) => Err(e)
      case Ok(Read(max, next)) => if max > TABLE_SIZE then Err(TableTooLarge) else Ok(Read(Resizes(max), next))
    else
      DecodeLiteral(c, ts, data, offset, octet >= 0x40)
  }

  /** What a block leaves: the table, the fields handed over in order, and why it stopped early. */
  datatype Block = Block(table: TableState, fields: seq<Field>, error: Option<HpackError>)

  /**
   * Decoding from an offset on. The callback of the source is the function accept: it sees the
   * fields handed over before and the new one, and refusing it stops the block.
   */
  function DecodeFrom(c: Config, accept: (seq<Field>, Field) -> bool, ts: TableState, data: seq<byte>,
                      offset: nat, listSize: nat, fields: seq<Field>): Block
    requires ValidConfig(c)
    decreases |data| - offset
  {
    if offset >= |data| then Block(ts, fields, None) else
    match DecodeRepresentation(c, ts, data, offset, fields != [])
    case Err(e) => Block(ts, fields, Some(e))
    case Ok(Read(Resizes(max), next)) => DecodeFrom(c, accept, ResizedTo(ts, max), data, next, listSize, fields)
    case Ok(Read(Carries(f, after), next)) =>
      if listSize + FieldSize(f) > MAX_HEADER_LIST_SIZE then Block(after, fields, Some(ListTooLong))
      else if !accept(fields, f) then Block(after, fields + [f], Some(Refused))
      else DecodeFrom(c, accept, after, data, next, listSize + FieldSize(f), fields + [f])
  }

  function DecodeBlock(c: Config, accept: (seq<Field>, Field) -> bool, ts: TableState, data: seq<byte>): Block
    requires ValidConfig(c)
  {
    DecodeFrom(c, accept, ts, data, 0, 0, [])
  }

  // ---- What holds of any bytes ----------------------------------------------------------------

  lemma AddedOk(ts: TableState, f: Field)
    requires TableOk(ts)
    ensures TableOk(Added(ts, f))
  {
  }

  lemma SizeOfSnoc(fs: seq<Field>, f: Field)
    ensures SizeOf(fs + [f]) == SizeOf(fs) + FieldSize(f)
  {
    assert (fs + [f])[..|fs + [f]| - 1] == fs;
  }

  /**
   * On arbitrary bytes the table keeps its bounds, whether the block ends well or not; the fields
   * handed over have an accounted size within the limit; and once a field has been handed over the
   * maximum size of the table no longer changes.
   */
  lemma {:induction false} DecodeSafe(c: Config, accept: (seq<Field>, Field) -> bool, ts: TableState, data: seq<byte>,
                                      offset: nat, fields: seq<Field>)
    requires ValidConfig(c) && TableOk(ts) && SizeOf(fields) <= MAX_HEADER_LIST_SIZE
    ensures var b := DecodeFrom(c, accept, ts, data, offset, SizeOf(fields), fields);
            && TableOk(b.table)
            && SizeOf(b.fields) <= MAX_HEADER_LIST_SIZE
            && fields <= b.fields
            && (fields != [] ==> b.table.maxSize == ts.maxSize)
    decreases |data| - offset
  {
    hide SizeOf;
    hide Inserted;
    hide Evicted;
    hide ValidConfig;
    hide DecodeRepresentation;
    if offset < |data| {
      match DecodeRepresentation(c, ts, data, offset, fields != [])
      case Err(e) =>
      case Ok(Read(Resizes(max), next)) =>
        DecodeSafe(c, accept, ResizedTo(ts, max), data, next, fields);
      case Ok(Read(Carries(f, after), next)) =>
        AddedOk(ts, f);
        SizeOfSnoc(fields, f);
        if SizeOf(fields) + FieldSize(f) <= MAX_HEADER_LIST_SIZE && accept(fields, f) {
          DecodeSafe(c, accept, after, data, next, fields + [f]);
        }
    }
  }

  lemma DecodeBlockSafe(c: Config, accept: (seq<Field>, Field) -> bool, ts: TableState, data: seq<byte>)
    requires ValidConfig(c) && TableOk(ts)
    ensures var b := DecodeBlock(c, accept, ts, data);
            TableOk(b.table) && SizeOf(b.fields) <= MAX_HEADER_LIST_SIZE
  {
    DecodeSafe(c, accept, ts, data, 0, []);
  }
}
