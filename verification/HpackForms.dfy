/**
 * The binary format of section 6 of RFC 7541 as a relation between bytes and what they stand for, and the
 * decoder held against it: what it accepts is exactly what is a form, with the field and the table of that form.
 */
module HpackForms {
  import opened Common
  import opened Bits
  import opened HuffmanCode
  import opened HpackInteger
  import opened HpackString
  import opened HpackTable
  import opened Hpack
  import opened HpackLockstep

  // ---- Strings, section 5.2 ---------------------------------------------------------------------

  /** A length under its flag, and the bytes it counts: coded when the flag is set. */
  ghost predicate LiteralParts(t: Tables, head: seq<byte>, payload: seq<byte>, s: seq<byte>)
    requires ValidCode(t)
  {
    Represents(head, 7, |payload|) && payload == if head[0] >= 0x80 then Encode(t, s) else s
  }

  ghost predicate StringForm(t: Tables, bs: seq<byte>, s: seq<byte>)
    requires ValidCode(t)
  {
    exists k: nat :: k <= |bs| && LiteralParts(t, bs[..k], bs[k..], s)
  }

  lemma RepresentsSome(bs: seq<byte>, prefix: nat, value: nat)
    requires Represents(bs, prefix, value)
    ensures bs != []
  {
  }

  lemma Slices(data: seq<byte>, offset: nat, k: nat, next: nat)
    requires offset + k <= next <= |data|
    ensures data[offset..next][..k] == data[offset..offset + k] && data[offset..next][k..] == data[offset + k..next]
    ensures k > 0 ==> data[offset..offset + k][0] == data[offset]
  {
  }

  lemma DecodeStringSound(t: Tables, data: seq<byte>, offset: nat, room: nat, s: seq<byte>, next: nat)
    requires ValidCode(t) && DecodeString(t, data, offset, room) == Ok(Read(s, next))
    ensures StringForm(t, data[offset..next], s)
  {
    hide Decode;
    hide Encode;
    hide DecodeInteger;
    hide Represents;
    hide ValidCode;
    var length, position := DecodeInteger(data, offset, 7).value.value, DecodeInteger(data, offset, 7).value.next;
    DecodeIntegerExact(data, offset, 7, length, position);
    Slices(data, offset, position - offset, next);
    DecodeExact(t, data[position..next], s, room);
    assert LiteralParts(t, data[offset..next][..position - offset], data[offset..next][position - offset..], s);
  }

  lemma DecodeStringComplete(t: Tables, data: seq<byte>, offset: nat, room: nat, s: seq<byte>, next: nat)
    requires ValidCode(t) && offset < next <= |data| && StringForm(t, data[offset..next], s) && |s| <= room
    ensures DecodeString(t, data, offset, room) == Ok(Read(s, next))
  {
    hide Decode;
    hide Encode;
    hide DecodeInteger;
    hide Represents;
    hide ValidCode;
    var bs := data[offset..next];
    var k: nat :| k <= |bs| && LiteralParts(t, bs[..k], bs[k..], s);
    RepresentsSome(bs[..k], 7, |bs[k..]|);
    Slices(data, offset, k, next);
    DecodeIntegerExact(data, offset, 7, |bs[k..]|, offset + k);
    DecodeExact(t, bs[k..], s, room);
  }

  /** The decoder takes exactly the string literals of the section that the buffer has room for. */
  lemma DecodeStringExact(t: Tables, data: seq<byte>, offset: nat, room: nat, s: seq<byte>, next: nat)
    requires ValidCode(t)
    ensures DecodeString(t, data, offset, room) == Ok(Read(s, next))
       <==> offset < next <= |data| && StringForm(t, data[offset..next], s) && |s| <= room
  {
    hide DecodeInteger;
    hide Decode;
    hide StringForm;
    hide ValidCode;
    if DecodeString(t, data, offset, room) == Ok(Read(s, next)) { DecodeStringSound(t, data, offset, room, s, next); }
    if offset < next <= |data| && StringForm(t, data[offset..next], s) && |s| <= room {
      DecodeStringComplete(t, data, offset, room, s, next);
    }
  }

  // ---- Fields and sizes, section 6 --------------------------------------------------------------

  /** A name: a string behind the index zero, or that of an entry and no byte at all. */
  ghost predicate NameForm(c: Config, ts: TableState, bs: seq<byte>, index: nat, name: seq<byte>)
    requires ValidConfig(c)
  {
    var all := c.staticTable + ts.fields;
    if index == 0 then StringForm(c.code, bs, name)
    else bs == [] && index <= |all| && name == all[index - 1].name
  }

  lemma DecodeNameExact(c: Config, ts: TableState, data: seq<byte>, index: nat, position: nat, name: seq<byte>, next: nat)
    requires ValidConfig(c) && position <= |data|
    ensures DecodeName(c, ts, data, index, position) == Ok(Read(name, next))
       <==> position <= next <= |data| && NameForm(c, ts, data[position..next], index, name) && |name| <= c.maxName
  {
    hide DecodeString;
    hide StringForm;
    hide ValidCode;
    DecodeStringExact(c.code, data, position, c.maxName, name, next);
    if position == next { assert data[position..next] == []; }
    NoEmptyForm(c.code, name);
  }

  lemma NoEmptyForm(t: Tables, s: seq<byte>)
    requires ValidCode(t)
    ensures !StringForm(t, [], s)
  {
  }

  /** An index under a prefix, a name and a value. */
  ghost predicate LiteralSplit(c: Config, ts: TableState, bs: seq<byte>, prefix: nat, f: Field, i: nat, j: nat, index: nat)
    requires ValidConfig(c) && i <= j <= |bs|
  {
    && Represents(bs[..i], prefix, index)
    && NameForm(c, ts, bs[i..j], index, f.name) && StringForm(c.code, bs[j..], f.value)
    && |f.name| <= c.maxName && |f.value| <= c.maxValue
  }

  ghost predicate LiteralForm(c: Config, ts: TableState, bs: seq<byte>, prefix: nat, f: Field)
    requires ValidConfig(c)
  {
    exists i: nat, j: nat, index: nat :: i <= j <= |bs| && LiteralSplit(c, ts, bs, prefix, f, i, j, index)
  }

  ghost predicate IndexedForm(c: Config, ts: TableState, bs: seq<byte>, f: Field) {
    var all := c.staticTable + ts.fields;
    exists index: nat :: Represents(bs, 7, index) && 1 <= index <= |all| && f == all[index - 1]
  }

  /**
   * The five forms, told apart by the first byte: indexed; a literal that joins the table; a new maximum size;
   * a literal that does not join it; and one that never may.
   */
  ghost predicate Form(c: Config, ts: TableState, bs: seq<byte>, r: Representation)
    requires ValidConfig(c)
  {
    bs != [] &&
    match r
    case Carries(f, after) =>
      || (0x80 <= bs[0] && IndexedForm(c, ts, bs, f) && after == ts)
      || (0x40 <= bs[0] < 0x80 && LiteralForm(c, ts, bs, 6, f) && after == Added(ts, f))
      || (0x10 <= bs[0] < 0x20 && LiteralForm(c, ts, bs, 4, f) && after == ts)
      || (bs[0] < 0x10 && LiteralForm(c, ts, bs, 4, f) && after == ts)
    case Resizes(max) => 0x20 <= bs[0] < 0x40 && Represents(bs, 5, max) && max <= 4096
  }

  lemma LiteralSound(c: Config, ts: TableState, data: seq<byte>, offset: nat, indexing: bool)
    requires ValidConfig(c) && offset < |data| && DecodeLiteral(c, ts, data, offset, indexing).Ok?
    ensures var r := DecodeLiteral(c, ts, data, offset, indexing).value;
            && r.value.after == (if indexing then Added(ts, r.value.field) else ts)
            && LiteralForm(c, ts, data[offset..r.next], if indexing then 6 else 4, r.value.field)
  {
    hide DecodeInteger;
    hide DecodeName;
    hide DecodeString;
    hide Represents;
    hide StringForm;
    hide NameForm;
    hide ValidConfig;
    hide Added;
    var prefix := if indexing then 6 else 4;
    var r := DecodeLiteral(c, ts, data, offset, indexing).value;
    var head := DecodeInteger(data, offset, prefix).value;
    var name := DecodeName(c, ts, data, head.value, head.next).value;
    LiteralPlaces(c, ts, data, offset, indexing);
    DecodeIntegerExact(data, offset, prefix, head.value, head.next);
    DecodeNameExact(c, ts, data, head.value, head.next, name.value, name.next);
    DecodeStringExact(c.code, data, name.next, c.maxValue, r.value.field.value, r.next);
    var bs, i, j := data[offset..r.next], head.next - offset, name.next - offset;
    Slices(data, offset, i, r.next);
    Slices(data, offset, j, r.next);
    assert bs[i..j] == data[head.next..name.next];
    assert LiteralSplit(c, ts, bs, prefix, r.value.field, i, j, head.value);
  }

  /** The parts a literal is read in. */
  lemma LiteralPlaces(c: Config, ts: TableState, data: seq<byte>, offset: nat, indexing: bool)
    requires ValidConfig(c) && offset < |data| && DecodeLiteral(c, ts, data, offset, indexing).Ok?
    ensures ValidCode(c.code)
    ensures var r := DecodeLiteral(c, ts, data, offset, indexing).value;
            var head := DecodeInteger(data, offset, if indexing then 6 else 4);
            && head.Ok? && offset < head.value.next <= |data|
            && var name := DecodeName(c, ts, data, head.value.value, head.value.next);
               && name.Ok? && head.value.next <= name.value.next <= |data|
               && DecodeString(c.code, data, name.value.next, c.maxValue) == Ok(Read(r.value.field.value, r.next))
               && r.value.field.name == name.value.value && name.value.next < r.next <= |data|
               && |r.value.field.name| <= c.maxName && |r.value.field.value| <= c.maxValue
  {
    hide DecodeInteger;
    hide DecodeName;
    hide DecodeString;
    hide ValidCode;
    hide Added;
  }

  lemma LiteralComplete(c: Config, ts: TableState, data: seq<byte>, offset: nat, indexing: bool, f: Field, next: nat)
    requires ValidConfig(c) && offset < next <= |data|
    requires LiteralForm(c, ts, data[offset..next], if indexing then 6 else 4, f)
    ensures DecodeLiteral(c, ts, data, offset, indexing) == Ok(Read(Carries(f, if indexing then Added(ts, f) else ts), next))
  {
    hide DecodeInteger;
    hide DecodeName;
    hide DecodeString;
    hide Represents;
    hide StringForm;
    hide NameForm;
    hide ValidCode;
    hide Added;
    var prefix := if indexing then 6 else 4;
    var bs := data[offset..next];
    var i: nat, j: nat, index: nat :| i <= j <= |bs| && LiteralSplit(c, ts, bs, prefix, f, i, j, index);
    RepresentsSome(bs[..i], prefix, index);
    Slices(data, offset, i, next);
    Slices(data, offset, j, next);
    assert bs[i..j] == data[offset + i..offset + j];
    DecodeIntegerExact(data, offset, prefix, index, offset + i);
    DecodeNameExact(c, ts, data, index, offset + i, f.name, offset + j);
    if j == |bs| { NoEmptyForm(c.code, f.value); }
    DecodeStringExact(c.code, data, offset + j, c.maxValue, f.value, next);
  }

  lemma DecodeLiteralExact(c: Config, ts: TableState, data: seq<byte>, offset: nat, indexing: bool, r: Representation,
                           next: nat)
    requires ValidConfig(c) && offset < |data|
    ensures DecodeLiteral(c, ts, data, offset, indexing) == Ok(Read(r, next))
       <==> && offset < next <= |data| && r.Carries? && r.after == (if indexing then Added(ts, r.field) else ts)
            && LiteralForm(c, ts, data[offset..next], if indexing then 6 else 4, r.field)
  {
    hide LiteralForm;
    hide Added;
    hide DecodeInteger;
    hide DecodeName;
    hide DecodeString;
    hide ValidConfig;
    if DecodeLiteral(c, ts, data, offset, indexing) == Ok(Read(r, next)) {
      LiteralSound(c, ts, data, offset, indexing);
    }
    if offset < next <= |data| && r.Carries? && LiteralForm(c, ts, data[offset..next], if indexing then 6 else 4, r.field) {
      LiteralComplete(c, ts, data, offset, indexing, r.field, next);
    }
  }

  lemma IndexedExact(c: Config, ts: TableState, data: seq<byte>, offset: nat, seen: bool, r: Representation, next: nat)
    requires ValidConfig(c) && offset < |data| && data[offset] >= 0x80
    ensures DecodeRepresentation(c, ts, data, offset, seen) == Ok(Read(r, next))
       <==> offset < next <= |data| && r.Carries? && r.after == ts && IndexedForm(c, ts, data[offset..next], r.field)
  {
    hide DecodeInteger;
    hide Represents;
    hide ValidCode;
    if DecodeRepresentation(c, ts, data, offset, seen) == Ok(Read(r, next)) {
      DecodeIntegerExact(data, offset, 7, DecodeInteger(data, offset, 7).value.value, next);
    }
    if offset < next <= |data| && r.Carries? && IndexedForm(c, ts, data[offset..next], r.field) {
      var all := c.staticTable + ts.fields;
      var index: nat :| Represents(data[offset..next], 7, index) && 1 <= index <= |all| && r.field == all[index - 1];
      DecodeIntegerExact(data, offset, 7, index, next);
    }
  }

  lemma SizeUpdateExact(c: Config, ts: TableState, data: seq<byte>, offset: nat, seen: bool, r: Representation, next: nat)
    requires ValidConfig(c) && offset < |data| && 0x20 <= data[offset] < 0x40
    ensures DecodeRepresentation(c, ts, data, offset, seen) == Ok(Read(r, next))
       <==> offset < next <= |data| && r.Resizes? && r.max <= 4096 && Represents(data[offset..next], 5, r.max) && !seen
  {
    hide DecodeInteger;
    hide Represents;
    hide ValidCode;
    if DecodeRepresentation(c, ts, data, offset, seen) == Ok(Read(r, next)) {
      DecodeIntegerExact(data, offset, 5, r.max, next);
    }
    if offset < next <= |data| && r.Resizes? && Represents(data[offset..next], 5, r.max) {
      DecodeIntegerExact(data, offset, 5, r.max, next);
    }
  }

  /**
   * The decoder takes exactly the forms of the section, wherever they stand, each with its field and its table;
   * only a new maximum size is refused once a field has been seen.
   */
  lemma DecodeRepresentationExact(c: Config, ts: TableState, data: seq<byte>, offset: nat, seen: bool, r: Representation,
                                  next: nat)
    requires ValidConfig(c) && offset < |data|
    ensures DecodeRepresentation(c, ts, data, offset, seen) == Ok(Read(r, next))
       <==> offset < next <= |data| && Form(c, ts, data[offset..next], r) && !(seen && r.Resizes?)
  {
    hide DecodeInteger;
    hide DecodeLiteral;
    hide Represents;
    hide LiteralForm;
    hide IndexedForm;
    hide ValidCode;
    hide Added;
    if offset < next <= |data| { assert data[offset..next][0] == data[offset]; }
    if data[offset] >= 0x80 {
      IndexedExact(c, ts, data, offset, seen, r, next);
    } else if 0x20 <= data[offset] < 0x40 {
      SizeUpdateExact(c, ts, data, offset, seen, r, next);
    } else {
      DecodeLiteralExact(c, ts, data, offset, data[offset] >= 0x40, r, next);
    }
  }

  // ---- What the table becomes, section 4 --------------------------------------------------------

  /** The size of a table is that of its fields together, each with 32 octets on top. */
  lemma {:induction false} SizeOfConcat(a: seq<Field>, b: seq<Field>)
    ensures SizeOf(a + b) == SizeOf(a) + SizeOf(b)
    ensures |a| == 1 ==> SizeOf(a) == |a[0].name| + |a[0].value| + 32
    ensures SizeOf([]) == 0
    decreases |b|
  {
    if |a| == 1 { assert SizeOf(a[..0]) == 0; }
    if b == [] {
      assert a + b == a;
    } else {
      assert (a + b)[..|a + b| - 1] == a + b[..|b| - 1];
      SizeOfConcat(a, b[..|b| - 1]);
    }
  }

  /** The longest run of newest fields that fits. */
  ghost predicate Longest(fs: seq<Field>, limit: int, kept: seq<Field>) {
    kept <= fs && SizeOf(kept) <= limit && forall k :: |kept| < k <= |fs| ==> SizeOf(fs[..k]) > limit
  }

  lemma EvictedExact(fs: seq<Field>, limit: nat, kept: seq<Field>)
    ensures kept == Evicted(fs, limit) <==> Longest(fs, limit, kept)
  {
    var e := Evicted(fs, limit);
    forall k | |e| < k <= |fs| ensures SizeOf(fs[..k]) > limit {
      if SizeOf(fs[..k]) <= limit { EvictedLongest(fs, limit, k); }
    }
    if Longest(fs, limit, kept) {
      assert kept == fs[..|kept|] && e == fs[..|e|];
      EvictedLongest(fs, limit, |kept|);
    }
  }

  /** A new maximum size keeps the newest fields that fit in it. */
  lemma ResizedExact(ts: TableState, max: nat, now: TableState)
    ensures now == ResizedTo(ts, max) <==> now.maxSize == max && Longest(ts.fields, max, now.fields)
  {
    hide Longest;
    hide Evicted;
    EvictedExact(ts.fields, max, now.fields);
  }

  /** A field that joins the table stands in front of the newest ones that fit beside it; one too large empties it. */
  lemma AddedExact(ts: TableState, f: Field, now: TableState)
    ensures var left := ts.maxSize - (|f.name| + |f.value| + 32);
            now == Added(ts, f) <==>
              && now.maxSize == ts.maxSize
              && if left < 0 then now.fields == []
                 else now.fields != [] && now.fields[0] == f && Longest(ts.fields, left, now.fields[1..])
  {
    hide Longest;
    hide Evicted;
    if FieldSize(f) <= ts.maxSize {
      var left := ts.maxSize - FieldSize(f);
      if now.fields != [] {
        EvictedExact(ts.fields, left, now.fields[1..]);
        assert now.fields == [now.fields[0]] + now.fields[1..];
        assert ([f] + Evicted(ts.fields, left))[1..] == Evicted(ts.fields, left);
      }
    }
  }

  // ---- Whole blocks -----------------------------------------------------------------------------

  function Next(ts: TableState, r: Representation): TableState {
    match r
    case Carries(_, after) => after
    case Resizes(max) => ResizedTo(ts, max)
  }

  /** A block is forms, one right behind the other, each for the table that the ones in front of it leave. */
  ghost predicate Spelt(c: Config, ts: TableState, bs: seq<byte>, rs: seq<Representation>)
    requires ValidConfig(c)
    decreases |rs|
  {
    if rs == [] then bs == []
    else exists k: nat :: k <= |bs| && Form(c, ts, bs[..k], rs[0]) && Spelt(c, Next(ts, rs[0]), bs[k..], rs[1..])
  }

  function Leaves(ts: TableState, rs: seq<Representation>): TableState
    decreases |rs|
  {
    if rs == [] then ts else Leaves(Next(ts, rs[0]), rs[1..])
  }

  function Fields(rs: seq<Representation>): seq<Field> {
    if rs == [] then [] else (if rs[0].Carries? then [rs[0].field] else []) + Fields(rs[1..])
  }

  /** New maximum sizes stand in front of all fields, and behind none that were there before. */
  predicate SizesFirst(rs: seq<Representation>, seen: bool) {
    rs == [] || (!(seen && rs[0].Resizes?) && SizesFirst(rs[1..], seen || rs[0].Carries?))
  }

  /** The handler accepts each field behind the ones before it. */
  ghost predicate AllAccepted(accept: (seq<Field>, Field) -> bool, before: seq<Field>, fs: seq<Field>)
    decreases |fs|
  {
    fs == [] || (accept(before, fs[0]) && AllAccepted(accept, before + [fs[0]], fs[1..]))
  }

  /** One representation of a block, and the rest of it. */
  lemma FromNext(c: Config, accept: (seq<Field>, Field) -> bool, ts: TableState, data: seq<byte>, offset: nat,
                 fields: seq<Field>, r: Representation, next: nat)
    requires ValidConfig(c) && offset < |data|
    requires DecodeRepresentation(c, ts, data, offset, fields != []) == Ok(Read(r, next))
    ensures var goal := DecodeFrom(c, accept, ts, data, offset, SizeOf(fields), fields);
            if r.Resizes? then goal == DecodeFrom(c, accept, Next(ts, r), data, next, SizeOf(fields), fields)
            else
              var more := fields + [r.field];
              if SizeOf(more) <= 32768 && accept(fields, r.field)
              then goal == DecodeFrom(c, accept, Next(ts, r), data, next, SizeOf(more), more)
              else goal.error != None
  {
    hide SizeOf;
    hide DecodeRepresentation;
    hide ValidConfig;
    hide Evicted;
    if r.Carries? { SizeOfSnoc(fields, r.field); }
  }

  lemma FromEnd(c: Config, accept: (seq<Field>, Field) -> bool, ts: TableState, data: seq<byte>, offset: nat,
                fields: seq<Field>)
    requires ValidConfig(c) && offset <= |data|
    ensures var goal := DecodeFrom(c, accept, ts, data, offset, SizeOf(fields), fields);
            && (offset == |data| ==> goal == Block(ts, fields, None))
            && (offset < |data| && goal.error == None ==> DecodeRepresentation(c, ts, data, offset, fields != []).Ok?)
  {
    hide SizeOf;
    hide DecodeRepresentation;
    hide ValidConfig;
    hide Evicted;
  }

  lemma SpeltNone(c: Config, accept: (seq<Field>, Field) -> bool, ts: TableState, bs: seq<byte>, seen: bool,
                  fields: seq<Field>)
    requires ValidConfig(c)
    ensures Spelt(c, ts, bs, []) <==> bs == []
    ensures Leaves(ts, []) == ts && fields + Fields([]) == fields && SizesFirst([], seen)
    ensures AllAccepted(accept, fields, Fields([]))
  {
  }

  /** A form in front of a block that is spelt. */
  lemma SpeltNext(c: Config, ts: TableState, bs: seq<byte>, k: nat, r: Representation, more: seq<Representation>)
    requires ValidConfig(c) && k <= |bs| && Form(c, ts, bs[..k], r) && Spelt(c, Next(ts, r), bs[k..], more)
    ensures Spelt(c, ts, bs, [r] + more)
  {
    hide Form;
    hide Next;
    hide ValidConfig;
    assert ([r] + more)[1..] == more;
  }

  lemma SpeltFirst(c: Config, ts: TableState, bs: seq<byte>, rs: seq<Representation>) returns (k: nat)
    requires ValidConfig(c) && rs != [] && Spelt(c, ts, bs, rs)
    ensures k <= |bs| && Form(c, ts, bs[..k], rs[0]) && Spelt(c, Next(ts, rs[0]), bs[k..], rs[1..]) && bs[..k] != []
  {
    hide Next;
    hide ValidConfig;
    k :| k <= |bs| && Form(c, ts, bs[..k], rs[0]) && Spelt(c, Next(ts, rs[0]), bs[k..], rs[1..]);
    FormSome(c, ts, bs[..k], rs[0]);
  }

  /** What a list of representations comes to, by its first one. */
  lemma ListNext(accept: (seq<Field>, Field) -> bool, ts: TableState, r: Representation, more: seq<Representation>,
                 fields: seq<Field>)
    ensures Leaves(ts, [r] + more) == Leaves(Next(ts, r), more)
    ensures r.Resizes? ==>
              && fields + Fields([r] + more) == fields + Fields(more)
              && (SizesFirst([r] + more, fields != []) <==> fields == [] && SizesFirst(more, false))
              && AllAccepted(accept, fields, Fields([r] + more)) == AllAccepted(accept, fields, Fields(more))
    ensures r.Carries? ==>
              && fields + Fields([r] + more) == fields + [r.field] + Fields(more)
              && (SizesFirst([r] + more, fields != []) <==> SizesFirst(more, true))
              && (AllAccepted(accept, fields, Fields([r] + more)) <==>
                    accept(fields, r.field) && AllAccepted(accept, fields + [r.field], Fields(more)))
  {
    hide Next;
    var rs := [r] + more;
    assert rs[1..] == more;
    if r.Carries? {
      assert ([r.field] + Fields(more))[1..] == Fields(more);
    } else {
      assert [] + Fields(more) == Fields(more);
    }
  }

  lemma {:induction false} BlockSound(c: Config, accept: (seq<Field>, Field) -> bool, ts: TableState, data: seq<byte>,
                                      offset: nat, fields: seq<Field>) returns (rs: seq<Representation>)
    requires ValidConfig(c) && offset <= |data| && SizeOf(fields) <= 32768
    requires DecodeFrom(c, accept, ts, data, offset, SizeOf(fields), fields).error == None
    ensures Spelt(c, ts, data[offset..], rs) && SizesFirst(rs, fields != [])
    ensures DecodeFrom(c, accept, ts, data, offset, SizeOf(fields), fields) ==
            Block(Leaves(ts, rs), fields + Fields(rs), None)
    ensures SizeOf(fields + Fields(rs)) <= 32768 && AllAccepted(accept, fields, Fields(rs))
    decreases |data| - offset
  {
    hide *;
    FromEnd(c, accept, ts, data, offset, fields);
    rs := [];
    if offset == |data| {
      assert data[offset..] == [];
      SpeltNone(c, accept, ts, [], fields != [], fields);
    } else {
      var step := DecodeRepresentation(c, ts, data, offset, fields != []).value;
      var r, next := step.value, step.next;
      DecodeRepresentationExact(c, ts, data, offset, fields != [], r, next);
      FromNext(c, accept, ts, data, offset, fields, r, next);
      Tail(data, offset, next);
      var now := if r.Carries? then fields + [r.field] else fields;
      var more := BlockSound(c, accept, Next(ts, r), data, next, now);
      SpeltNext(c, ts, data[offset..], next - offset, r, more);
      ListNext(accept, ts, r, more, fields);
      rs := [r] + more;
    }
  }

  lemma Tail(data: seq<byte>, offset: nat, next: nat)
    requires offset <= next <= |data|
    ensures data[offset..][..next - offset] == data[offset..next] && data[offset..][next - offset..] == data[next..]
  {
  }

  lemma SizeGrows(a: seq<Field>, b: seq<Field>)
    ensures SizeOf(a) <= SizeOf(a + b)
  {
    SizeOfConcat(a, b);
  }

  lemma {:induction false} BlockComplete(c: Config, accept: (seq<Field>, Field) -> bool, ts: TableState, data: seq<byte>,
                                         offset: nat, fields: seq<Field>, rs: seq<Representation>)
    requires ValidConfig(c) && offset <= |data|
    requires Spelt(c, ts, data[offset..], rs) && SizesFirst(rs, fields != [])
    requires SizeOf(fields + Fields(rs)) <= 32768 && AllAccepted(accept, fields, Fields(rs))
    ensures DecodeFrom(c, accept, ts, data, offset, SizeOf(fields), fields) ==
            Block(Leaves(ts, rs), fields + Fields(rs), None)
    decreases |rs|
  {
    hide *;
    if rs == [] {
      SpeltNone(c, accept, ts, data[offset..], fields != [], fields);
      FromEnd(c, accept, ts, data, offset, fields);
    } else {
      var r, more := rs[0], rs[1..];
      var k := SpeltFirst(c, ts, data[offset..], rs);
      assert rs == [r] + more;
      Tail(data, offset, offset + k);
      ListNext(accept, ts, r, more, fields);
      DecodeRepresentationExact(c, ts, data, offset, fields != [], r, offset + k);
      FromNext(c, accept, ts, data, offset, fields, r, offset + k);
      var now := if r.Carries? then fields + [r.field] else fields;
      SizeGrows(now, Fields(more));
      BlockComplete(c, accept, Next(ts, r), data, offset + k, now, more);
    }
  }

  lemma FormSome(c: Config, ts: TableState, bs: seq<byte>, r: Representation)
    requires ValidConfig(c) && Form(c, ts, bs, r)
    ensures bs != []
  {
  }

  /** What a block stands for. */
  ghost predicate Means(c: Config, accept: (seq<Field>, Field) -> bool, ts: TableState, data: seq<byte>,
                        rs: seq<Representation>)
    requires ValidConfig(c)
  {
    Spelt(c, ts, data, rs) && SizesFirst(rs, false) && SizeOf(Fields(rs)) <= 32768 && AllAccepted(accept, [], Fields(rs))
  }

  /**
   * A block decodes without an error exactly when it is spelt in forms, with new sizes in front, with fields
   * that stay within the limit and that the handler accepts; and then to these fields and their table.
   */
  lemma BlockExact(c: Config, accept: (seq<Field>, Field) -> bool, ts: TableState, data: seq<byte>, now: TableState,
                   fs: seq<Field>)
    requires ValidConfig(c)
    ensures DecodeBlock(c, accept, ts, data) == Block(now, fs, None)
       <==> exists rs :: Means(c, accept, ts, data, rs) && now == Leaves(ts, rs) && fs == Fields(rs)
  {
    hide DecodeFrom;
    hide Spelt;
    hide Leaves;
    hide ValidConfig;
    hide AllAccepted;
    hide SizesFirst;
    hide Fields;
    assert data[0..] == data;
    SizeOfConcat([], []);
    if DecodeBlock(c, accept, ts, data) == Block(now, fs, None) {
      var rs := BlockSound(c, accept, ts, data, 0, []);
      assert [] + Fields(rs) == Fields(rs);
      assert Means(c, accept, ts, data, rs);
    }
    if rs :| Means(c, accept, ts, data, rs) && now == Leaves(ts, rs) && fs == Fields(rs) {
      assert [] + Fields(rs) == Fields(rs);
      BlockComplete(c, accept, ts, data, 0, [], rs);
    }
  }

  // ---- What the encoder chooses -----------------------------------------------------------------

  /** What is written for a field is a form of it, whatever it is followed by. */
  lemma EncodedForm(c: Config, ts: TableState, f: Field, indexing: bool)
    requires ValidConfig(c) && TableOk(ts) && FieldFits(c, f)
    ensures Form(c, ts, EncodeField(c, ts, f, indexing), Carries(f, AfterField(c, ts, f, indexing)))
  {
    hide DecodeRepresentation;
    hide EncodeField;
    hide AfterField;
    hide Form;
    hide ValidConfig;
    var bytes := EncodeField(c, ts, f, indexing);
    FieldRoundTrip(c, ts, [], f, indexing, [], false);
    assert [] + bytes + [] == bytes && bytes[0..|bytes|] == bytes;
    DecodeRepresentationExact(c, ts, bytes, 0, false, Carries(f, AfterField(c, ts, f, indexing)), |bytes|);
  }

  lemma HeadKinds(n: nat, indexing: bool)
    ensures IndexedHead(n) != [] && IndexedHead(n)[0] >= 0x80
    ensures var head := LiteralHead(n, indexing);
            && head != [] && (if indexing then 0x40 <= head[0] < 0x80 else head[0] < 0x10)
            && (head[0] == (if indexing then 0x40 else 0x00) <==> n == 0)
  {
    RepresentationFlags();
  }

  lemma FirstPiece(c: Config, ts: TableState, f: Field, indexing: bool)
    requires ValidConfig(c)
    ensures var all, bytes := c.staticTable + ts.fields, EncodeField(c, ts, f, indexing);
            && FieldPieces(c, ts, f, indexing) != []
            && (FieldPieces(c, ts, f, indexing)[0] != [] ==>
                  bytes != [] && bytes[0] == FieldPieces(c, ts, f, indexing)[0][0])
  {
    hide IndexedHead;
    hide LiteralHead;
    hide StringPieces;
    hide FullIndex;
    hide NameIndex;
  }

  /**
   * A field that is in a table is written as its index. Any other is a literal, with or without indexing as asked,
   * and spells its name out only when no entry has it.
   */
  lemma EncodedKind(c: Config, ts: TableState, f: Field, indexing: bool)
    requires ValidConfig(c)
    ensures var all, bytes := c.staticTable + ts.fields, EncodeField(c, ts, f, indexing);
            && bytes != []
            && (f in all <==> bytes[0] >= 0x80)
            && (f !in all ==> if indexing then 0x40 <= bytes[0] < 0x80 else bytes[0] < 0x10)
            && (f !in all ==>
                  (bytes[0] == (if indexing then 0x40 else 0x00) <==> forall g :: g in all ==> g.name != f.name))
  {
    hide IndexedHead;
    hide LiteralHead;
    hide EncodeField;
    hide StringPieces;
    hide Search;
    var all := c.staticTable + ts.fields;
    var full, name := FullIndex(all, f), NameIndex(all, f);
    FirstPiece(c, ts, f, indexing);
    HeadKinds(full, indexing);
    HeadKinds(name, indexing);
    if full == 0 && name == 0 {
      forall j | 0 <= j < |all| ensures all[j].name != f.name {}
    }
  }
}
