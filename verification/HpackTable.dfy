/**
 * The tables of section 2.3 of RFC 7541: what the dynamic table is as a list of fields, newest first,
 * and the ring of 128 slots that the source keeps it in.
 */
module HpackTable {
  import opened Common
  import opened HpackInteger

  const STATIC_SIZE: nat := 61
  const TABLE_SIZE: nat := 4096
  const ENTRY_OVERHEAD: nat := 32
  /** TABLE_SIZE / ENTRY_OVERHEAD */
  const MAX_ENTRIES: nat := 128

  datatype Field = Field(name: seq<byte>, value: seq<byte>)

  function FieldSize(f: Field): nat {
    |f.name| + |f.value| + ENTRY_OVERHEAD
  }

  function SizeOf(fs: seq<Field>): nat {
    if fs == [] then 0 else SizeOf(fs[..|fs| - 1]) + FieldSize(fs[|fs| - 1])
  }

  // ---- Eviction and insertion on lists --------------------------------------------------------

  /** Drops the oldest fields, those at the end, until the rest fits in the limit. */
  function Evicted(fs: seq<Field>, limit: nat): (r: seq<Field>)
    ensures r <= fs && SizeOf(r) <= limit
  {
    if SizeOf(fs) <= limit then fs else Evicted(fs[..|fs| - 1], limit)
  }

  /** Section 4.4: a field larger than the table empties it and is not added. */
  function Inserted(fs: seq<Field>, maxSize: nat, f: Field): (r: seq<Field>)
    ensures SizeOf(r) <= maxSize
  {
    if FieldSize(f) > maxSize then []
    else
      SizeOfCons(f, Evicted(fs, maxSize - FieldSize(f)));
      [f] + Evicted(fs, maxSize - FieldSize(f))
  }

  lemma {:induction false} SizeOfCons(f: Field, fs: seq<Field>)
    ensures SizeOf([f] + fs) == FieldSize(f) + SizeOf(fs)
  {
    var all := [f] + fs;
    if fs == [] {
      assert all[..0] == [];
    } else {
      assert all[..|all| - 1] == [f] + fs[..|fs| - 1];
      SizeOfCons(f, fs[..|fs| - 1]);
    }
  }

  lemma {:induction false} SizeOfPrefix(fs: seq<Field>, k: nat)
    requires k <= |fs|
    ensures SizeOf(fs[..k]) + ENTRY_OVERHEAD * (|fs| - k) <= SizeOf(fs)
    decreases |fs|
  {
    if k < |fs| {
      var front := fs[..|fs| - 1];
      SizeOfPrefix(front, k);
      assert front[..k] == fs[..k];
    } else {
      assert fs[..k] == fs;
    }
  }

  /** No field is dropped without need: one more of those kept would not fit. */
  lemma {:induction false} EvictedLongest(fs: seq<Field>, limit: nat, k: nat)
    requires k <= |fs| && SizeOf(fs[..k]) <= limit
    ensures k <= |Evicted(fs, limit)|
    decreases |fs|
  {
    if SizeOf(fs) > limit {
      assert fs[..|fs|] == fs;
      var front := fs[..|fs| - 1];
      assert front[..k] == fs[..k];
      EvictedLongest(front, limit, k);
    }
  }

  /** Within the limit of a table the ring holds every field, and has a free slot for one that still fits. */
  lemma CountBound(fs: seq<Field>)
    ensures ENTRY_OVERHEAD * |fs| <= SizeOf(fs)
    ensures SizeOf(fs) <= TABLE_SIZE ==> |fs| <= MAX_ENTRIES
    ensures forall f :: SizeOf(fs) + FieldSize(f) <= TABLE_SIZE ==> |fs| < MAX_ENTRIES
  {
    CountedSize(fs);
  }

  lemma {:induction false} CountedSize(fs: seq<Field>)
    ensures ENTRY_OVERHEAD * |fs| <= SizeOf(fs)
    decreases |fs|
  {
    if fs != [] { CountedSize(fs[..|fs| - 1]); }
  }

  // ---- Searching ------------------------------------------------------------------------------

  /** The least one-based position whose field satisfies p, or zero. */
  ghost function Search(all: seq<Field>, p: Field -> bool): (r: nat)
    ensures r <= |all|
    ensures r > 0 ==> p(all[r - 1])
    ensures forall j :: 0 <= j < (if r > 0 then r - 1 else |all|) ==> !p(all[j])
  {
    if all == [] then 0
    else if p(all[0]) then 1
    else
      var r := Search(all[1..], p);
      assert forall j :: 1 <= j < |all| ==> all[j] == all[1..][j - 1];
      if r == 0 then 0 else r + 1
  }

  lemma SearchIs(all: seq<Field>, p: Field -> bool, r: nat)
    requires r <= |all| && (r > 0 ==> p(all[r - 1]))
    requires forall j :: 0 <= j < (if r > 0 then r - 1 else |all|) ==> !p(all[j])
    ensures r == Search(all, p)
  {
    var s := Search(all, p);
    assert r > 0 && s > 0 ==> !(r < s) && !(s < r);
  }

  /** Section 2.3.3: one address space, the static table first. Index 1 is the first of it. */
  ghost function FullIndex(all: seq<Field>, f: Field): nat {
    Search(all, (g: Field) => g == f)
  }

  ghost function NameIndex(all: seq<Field>, f: Field): nat {
    Search(all, (g: Field) => g.name == f.name)
  }

  function FieldAt(all: seq<Field>, index: nat): Result<Field, HpackError> {
    if index == 0 then Err(ZeroIndex)
    else if index > |all| then Err(UnknownIndex)
    else Ok(all[index - 1])
  }

  // ---- The ring -------------------------------------------------------------------------------

  /** A slot of the ring owns the memory of its name and value, or holds nothing. */
  datatype Slot = Free | Held(name: seq<byte>, value: seq<byte>, size: nat)

  /** The slot of the i-th newest entry when the newest is at head. */
  function Position(head: nat, i: nat): (p: nat)
    requires head < MAX_ENTRIES && i < MAX_ENTRIES
    ensures p < MAX_ENTRIES && p == if i <= head then head - i else head + MAX_ENTRIES - i
  {
    (head + MAX_ENTRIES - i) % MAX_ENTRIES
  }

  /** Stepping the head shifts every position by one and reaches the slot of the oldest possible entry. */
  lemma NextSlot(head: nat, next: nat)
    requires head < MAX_ENTRIES && next == (head + 1) % MAX_ENTRIES
    ensures next < MAX_ENTRIES
    ensures Position(head, MAX_ENTRIES - 1) == next == Position(next, 0)
    ensures forall i :: 0 < i < MAX_ENTRIES ==>
              Position(next, i) == Position(head, i - 1) && Position(next, i) != next
  {
    hide Position;
  }

  class DynamicTable {
    const entries: array<Slot>
    var head: nat
    var count: nat
    var size: nat
    var maxSize: nat

    /** The shape of the ring: exactly the slots of the count newest positions hold an entry. */
    ghost predicate Ring()
      reads this, entries
    {
      && entries.Length == MAX_ENTRIES && head < MAX_ENTRIES && count <= MAX_ENTRIES
      && (forall i :: 0 <= i < count ==> entries[Position(head, i)].Held?)
      && (forall i :: count <= i < MAX_ENTRIES ==> entries[Position(head, i)].Free?)
      && (forall p :: 0 <= p < MAX_ENTRIES && entries[p].Held? ==>
            entries[p].size == FieldSize(Field(entries[p].name, entries[p].value)))
      && size == SizeOf(Contents())
      && maxSize <= TABLE_SIZE
    }

    /** Between calls the table also fits in its maximum size. */
    ghost predicate Valid()
      reads this, entries
    {
      Ring() && size <= maxSize
    }

    ghost function Contents(): (r: seq<Field>)
      requires entries.Length == MAX_ENTRIES && head < MAX_ENTRIES && count <= MAX_ENTRIES
      requires forall i :: 0 <= i < count ==> entries[Position(head, i)].Held?
      reads this, entries
      ensures |r| == count
    {
      seq(count, i requires 0 <= i < count && count <= MAX_ENTRIES && head < MAX_ENTRIES
                   && entries.Length == MAX_ENTRIES && entries[Position(head, i)].Held?
                   reads this, entries =>
        var e := entries[Position(head, i)]; Field(e.name, e.value))
    }

    constructor ()
      ensures Valid() && fresh(entries)
      ensures Contents() == [] && maxSize == TABLE_SIZE
    {
      entries := new Slot[MAX_ENTRIES](_ => Free);
      head := MAX_ENTRIES - 1;
      count := 0;
      size := 0;
      maxSize := TABLE_SIZE;
    }

    /** Releases the oldest entry. */
    method Evict()
      requires Ring() && count > 0
      modifies this, entries
      ensures Ring() && maxSize == old(maxSize) && count == old(count) - 1
      ensures Contents() == old(Contents())[..old(count) - 1]
    {
      hide Position;
      ghost var before := Contents();
      var position := Position(head, count - 1);
      var released := entries[position].size;
      assert forall i :: 0 <= i < MAX_ENTRIES && i != count - 1 ==> Position(head, i) != position;
      assert before[count - 1] == Field(entries[position].name, entries[position].value);
      entries[position] := Free;
      size := size - released;
      count := count - 1;
      assert Contents() == before[..count];
    }

    /** Changes the maximum size, within the one advertised, and evicts down to it. */
    method Resize(max: nat) returns (ok: bool)
      requires Valid()
      modifies this, entries
      ensures Valid()
      ensures ok <==> max <= TABLE_SIZE
      ensures ok ==> maxSize == max && Contents() == Evicted(old(Contents()), max)
      ensures !ok ==> maxSize == old(maxSize) && Contents() == old(Contents())
    {
      if max > TABLE_SIZE {
        return false;
      }
      maxSize := max;
      assert Contents() == old(Contents());
      while count > 0 && size > maxSize
        invariant Ring() && maxSize == max
        invariant Evicted(Contents(), max) == Evicted(old(Contents()), max)
        decreases count
      {
        Evict();
      }
      return true;
    }

    /**
     * Adds a field in front after evicting what it needs room for. The slot it takes is free, so no
     * live entry is overwritten and no memory is lost.
     */
    method Insert(f: Field)
      requires Valid()
      modifies this, entries
      ensures Valid() && maxSize == old(maxSize)
      ensures Contents() == Inserted(old(Contents()), maxSize, f)
    {
      var entrySize := FieldSize(f);
      ghost var was, limit := Contents(), if entrySize <= maxSize then maxSize - entrySize else 0;
      while count > 0 && size + entrySize > maxSize
        invariant Ring() && maxSize == old(maxSize)
        invariant Evicted(Contents(), limit) == Evicted(was, limit)
        decreases count
      {
        Evict();
      }
      if entrySize > maxSize {
        return;
      }
      Push(f);
    }

    /** Takes the next slot of the ring for a field that fits. */
    method Push(f: Field)
      requires Ring() && size + FieldSize(f) <= maxSize
      modifies this, entries
      ensures Valid() && maxSize == old(maxSize)
      ensures Contents() == [f] + old(Contents())
    {
      hide Position;
      hide SizeOf;
      ghost var kept := Contents();
      CountBound(kept);
      SizeOfCons(f, kept);
      var next := (head + 1) % MAX_ENTRIES;
      NextSlot(head, next);
      assert entries[next].Free?;
      head := next;
      entries[head] := Held(f.name, f.value, FieldSize(f));
      count := count + 1;
      size := size + FieldSize(f);
      forall i | 0 <= i < count
        ensures entries[Position(head, i)].Held?
        ensures Field(entries[Position(head, i)].name, entries[Position(head, i)].value) == ([f] + kept)[i]
      {
        if i > 0 { assert ([f] + kept)[i] == kept[i - 1]; }
      }
      assert Contents() == [f] + kept;
    }

    /** The field at an index of the combined address space. */
    method Get(staticTable: seq<Field>, index: nat) returns (r: Result<Field, HpackError>)
      requires Valid() && |staticTable| == STATIC_SIZE
      ensures r == FieldAt(staticTable + Contents(), index)
    {
      if index == 0 {
        return Err(ZeroIndex);
      }
      if index <= STATIC_SIZE {
        return Ok(staticTable[index - 1]);
      }
      var dynamicIndex := index - STATIC_SIZE;
      if dynamicIndex > count {
        return Err(UnknownIndex);
      }
      var position := Position(head, dynamicIndex - 1);
      assert Contents()[dynamicIndex - 1] == Field(entries[position].name, entries[position].value);
      return Ok(Field(entries[position].name, entries[position].value));
    }

    /**
     * Searches the static table and then the dynamic one, newest first. A complete match is the
     * first of the address space; failing that the index is the first match of the name, or zero.
     */
    method Find(staticTable: seq<Field>, f: Field) returns (complete: bool, index: nat)
      requires Valid() && |staticTable| == STATIC_SIZE
      ensures complete <==> FullIndex(staticTable + Contents(), f) != 0
      ensures index == if complete then FullIndex(staticTable + Contents(), f)
                       else NameIndex(staticTable + Contents(), f)
    {
      hide Ring;
      hide Position;
      hide Search;
      hide Searched;
      hide FullIndex;
      hide NameIndex;
      hide SizeOf;
      RingShape();
      ghost var all := staticTable + Contents();
      index := 0;
      var position := 0;
      SearchedNothing(all, f);
      while position < STATIC_SIZE
        invariant 0 <= position <= STATIC_SIZE
        invariant Searched(all, f, position, index)
      {
        var entry := staticTable[position];
        assert entry == all[position];
        SearchedNext(all, f, position, index);
        position := position + 1;
        if entry.name != f.name { continue; }
        if index == 0 { index := position; }
        if entry.value != f.value { continue; }
        return true, position;
      }
      position := 1;
      while position <= count
        invariant 1 <= position <= count + 1
        invariant Searched(all, f, STATIC_SIZE + position - 1, index)
      {
        SlotHeld(position - 1);
        var slot := entries[Position(head, position - 1)];
        assert Field(slot.name, slot.value) == all[STATIC_SIZE + position - 1];
        SearchedNext(all, f, STATIC_SIZE + position - 1, index);
        position := position + 1;
        if slot.name != f.name { continue; }
        if index == 0 { index := STATIC_SIZE + position - 1; }
        if slot.value != f.value { continue; }
        return true, STATIC_SIZE + position - 1;
      }
      SearchedAll(all, f, index);
      return false, index;
    }

    lemma RingShape()
      requires Ring()
      ensures entries.Length == MAX_ENTRIES && head < MAX_ENTRIES && count <= MAX_ENTRIES
      ensures forall i :: 0 <= i < count ==> entries[Position(head, i)].Held?
    {
    }

    /** The slot of an entry that is held, and the field it stands for. */
    lemma SlotHeld(i: nat)
      requires Ring() && i < count
      ensures Position(head, i) < entries.Length == MAX_ENTRIES && entries[Position(head, i)].Held?
      ensures var e := entries[Position(head, i)]; Field(e.name, e.value) == Contents()[i]
    {
    }

    /** Releases every entry. */
    method Delete()
      requires Valid()
      modifies this, entries
      ensures Valid() && Contents() == [] && maxSize == old(maxSize)
      ensures forall p :: 0 <= p < MAX_ENTRIES ==> entries[p].Free?
    {
      while count > 0
        invariant Valid() && maxSize == old(maxSize)
      {
        ghost var before := Contents();
        Evict();
        SizeOfPrefix(before, count);
      }
      forall p | 0 <= p < MAX_ENTRIES ensures entries[p].Free? {
        assert Position(head, if p <= head then head - p else head + MAX_ENTRIES - p) == p;
      }
    }
  }

  /** After n entries without a complete match: the index is the first match of the name so far. */
  ghost predicate Searched(all: seq<Field>, f: Field, n: nat, index: nat) {
    && n <= |all| && index <= n
    && (forall j :: 0 <= j < n ==> all[j] != f)
    && (index > 0 ==> all[index - 1].name == f.name)
    && (forall j :: 0 <= j < (if index > 0 then index - 1 else n) ==> all[j].name != f.name)
  }

  lemma SearchedNothing(all: seq<Field>, f: Field)
    ensures Searched(all, f, 0, 0)
  {
  }

  /** One more entry: a complete match ends the search, a match of the name is kept when it is the first. */
  lemma SearchedNext(all: seq<Field>, f: Field, n: nat, index: nat)
    requires n < |all| && Searched(all, f, n, index)
    ensures all[n] == f ==> FullIndex(all, f) == n + 1
    ensures all[n] != f ==>
              Searched(all, f, n + 1, if index == 0 && all[n].name == f.name then n + 1 else index)
  {
    if all[n] == f { SearchedFull(all, f, n + 1); }
  }

  lemma SearchedFull(all: seq<Field>, f: Field, n: nat)
    requires 0 < n <= |all| && all[n - 1] == f && forall j :: 0 <= j < n - 1 ==> all[j] != f
    ensures n == FullIndex(all, f)
  {
    SearchIs(all, (g: Field) => g == f, n);
  }

  lemma SearchedAll(all: seq<Field>, f: Field, index: nat)
    requires Searched(all, f, |all|, index)
    ensures FullIndex(all, f) == 0 && index == NameIndex(all, f)
  {
    SearchIs(all, (g: Field) => g == f, 0);
    SearchIs(all, (g: Field) => g.name == f.name, index);
  }
}
